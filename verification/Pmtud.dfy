/** The path-MTU discovery engine (`PathMtuDiscovery` in src/pmtud.rs): all tracked peers, the cached global
    minimum, the pin and the probe-id counter.

    The ghost field `lives` records every peer's history as the peer-level machine sees it, and `Valid` says
    that each stored state is what that history produces.  Whatever is proved about every `Life` therefore
    holds of every peer of every reachable engine. */
module Pmtud {
  import opened Wrappers
  import opened PmtudPeer
  import opened PmtudProbes
  import opened PmtudWindow
  import opened PmtudLiveness
  import PmtudConvergence
  import PmtudTermination
  import opened ProbeTurns

  datatype Ip = V4(a: u8, b: u8, c: u8, d: u8) | V6(address: nat)

  datatype Endpoint = Endpoint(ip: Ip, port: nat)

  datatype TickInput = TickInput(addr: Endpoint, rttMs: real, warm: bool, largeAlive: bool)

  datatype ProbeIntent = ProbeIntent(peer: Endpoint, size: nat, probeId: u32, searchGen: u32)

  type Peers = map<Endpoint, PeerState>

  /** `10/8`, `172.16/12` and `192.168/16` (RFC 1918). */
  predicate IsPrivate(ep: Endpoint) {
    ep.ip.V4? && (ep.ip.a == 10 || (ep.ip.a == 172 && 16 <= ep.ip.b < 32) || (ep.ip.a == 192 && ep.ip.b == 168))
  }

  /** `m` is the least `lastGood` over the peers outside `skip`, or the default if there are none. */
  ghost predicate IsMinOver(m: nat, peers: Peers, skip: set<Endpoint>) {
    if peers.Keys <= skip then
      m == DEFAULT_MTU
    else
      && (forall ep :: ep in peers && ep !in skip ==> m <= peers[ep].lastGood)
      && (exists ep :: ep in peers && ep !in skip && m == peers[ep].lastGood)
  }

  function AddrSeq(inputs: seq<TickInput>): seq<Endpoint> {
    seq(|inputs|, i requires 0 <= i < |inputs| => inputs[i].addr)
  }

  function Addrs(inputs: seq<TickInput>): set<Endpoint> {
    set ep | ep in AddrSeq(inputs)
  }

  /** The input that decides for `ep`: later entries overwrite earlier ones. */
  function LastInput(inputs: seq<TickInput>, ep: Endpoint): (input: TickInput)
    requires ep in Addrs(inputs)
    ensures input in inputs && input.addr == ep
  {
    assert AddrSeq(inputs)[..|inputs| - 1] == AddrSeq(inputs[..|inputs| - 1]);
    if inputs[|inputs| - 1].addr == ep then inputs[|inputs| - 1] else LastInput(inputs[..|inputs| - 1], ep)
  }

  function Before(peers: Peers, ep: Endpoint, now: nat, cfg: Tuning): PeerState {
    if ep in peers then peers[ep] else Fresh(now, cfg)
  }

  lemma AddrsAppend(inputs: seq<TickInput>, input: TickInput)
    ensures Addrs(inputs + [input]) == Addrs(inputs) + {input.addr}
  {
    assert AddrSeq(inputs + [input]) == AddrSeq(inputs) + [input.addr];
  }

  /** The peer as the grace stage of a tick finds it. */
  function Admitted(peers: Peers, inputs: seq<TickInput>, ep: Endpoint, now: nat, cfg: Tuning): PeerState
    requires ep in Addrs(inputs)
  {
    var input := LastInput(inputs, ep);
    InputStep(Heal(IsPrivate(ep), Before(peers, ep, now, cfg), now, cfg), input.rttMs, input.warm && input.largeAlive)
  }

  /** Healed peers, with the inputs seen so far applied. */
  ghost predicate AdmittedSoFar(before: Peers, after: Peers, inputs: seq<TickInput>, now: nat, cfg: Tuning) {
    && Addrs(inputs) <= after.Keys
    && (forall ep :: ep in after && ep in Addrs(inputs) ==> after[ep] == Admitted(before, inputs, ep, now, cfg))
    && (forall ep :: ep in after && ep !in Addrs(inputs) ==>
          ep in before && after[ep] == Heal(IsPrivate(ep), before[ep], now, cfg))
    && (forall ep :: ep in before && ep !in after ==> ep !in Addrs(inputs))
  }

  lemma NothingAdmitted(before: Peers, healed: Peers, now: nat, cfg: Tuning)
    requires forall ep :: ep in healed ==> ep in before && healed[ep] == Heal(IsPrivate(ep), before[ep], now, cfg)
    ensures AdmittedSoFar(before, healed, [], now, cfg)
  {
  }

  lemma AdmitNext(before: Peers, mid: Peers, inputs: seq<TickInput>, input: TickInput, now: nat, cfg: Tuning)
    requires AdmittedSoFar(before, mid, inputs, now, cfg)
    requires input.addr in before ==> input.addr in mid
    ensures AdmittedSoFar(before,
                          mid[input.addr := InputStep(Before(mid, input.addr, now, cfg), input.rttMs,
                                                      input.warm && input.largeAlive)],
                          inputs + [input], now, cfg)
  {
    hide Heal, Fresh;
    AddrsAppend(inputs, input);
    FreshIsHealed(IsPrivate(input.addr), now, cfg);
    assert (inputs + [input])[..|inputs|] == inputs;
  }

  lemma AllAdmitted(before: Peers, after: Peers, inputs: seq<TickInput>, now: nat, cfg: Tuning)
    requires AdmittedSoFar(before, after, inputs, now, cfg)
    requires forall ep :: ep in after ==> ep in Addrs(inputs)
    ensures after.Keys == Addrs(inputs)
    ensures forall ep :: ep in after ==> after[ep] == Admitted(before, inputs, ep, now, cfg)
  {
  }

  /** Nothing in a tick with these inputs can make it recompute the cached minimum. */
  ghost predicate Quiet(peers: Peers, inputs: seq<TickInput>) {
    && peers.Keys <= Addrs(inputs)
    && forall ep :: ep in peers ==> !NeedsHeal(IsPrivate(ep), peers[ep]) && !(peers[ep].grace.Some? && peers[ep].phase.Recheck?)
  }

  lemma QuietAdmitted(peers: Peers, inputs: seq<TickInput>, ep: Endpoint, now: nat, cfg: Tuning)
    requires Quiet(peers, inputs) && ep in Addrs(inputs)
    ensures var p := Admitted(peers, inputs, ep, now, cfg); !(p.grace.Some? && p.phase.Recheck?)
  {
    hide LastInput, Addrs;
    FreshIsHealed(IsPrivate(ep), now, cfg);
  }

  /** A tick leaves a peer that it inserts at the default size. */
  lemma NewcomerAtDefault(isPrivate: bool, e: Event)
    requires e.Tick?
    ensures Step(isPrivate, Fresh(e.now, e.cfg), e).lastGood == DEFAULT_MTU
  {
    hide StartStep, IssueStep, WantsProbe;
    FreshIsHealed(isPrivate, e.now, e.cfg);
    var c := BeforeStart(isPrivate, Fresh(e.now, e.cfg), e);
    StartKeepsLastGood(c, e.now, e.cfg);
    IssueKeepsLastGood(StartStep(c, e.now, e.cfg), e.now, e.cfg, e.issueId);
  }

  lemma FreshIsHealed(isPrivate: bool, now: nat, cfg: Tuning)
    ensures Heal(isPrivate, Fresh(now, cfg), now, cfg) == Fresh(now, cfg)
  {
  }

  /** `after` is the history of `ep`, or a new one, extended by one tick. */
  ghost predicate Ticked(peers: Peers, lives: map<Endpoint, Life>, ep: Endpoint, input: TickInput, now: nat, cfg: Tuning,
                         after: Life)
    requires ep in peers ==> ep in lives
  {
    var l := if ep in peers then lives[ep] else Life(now, cfg, []);
    && |after.events| == |l.events| + 1
    && TickOf(after.events[|l.events|], input, now, cfg)
    && after == Extended(l, after.events[|l.events|])
  }

  predicate TickOf(e: Event, input: TickInput, now: nat, cfg: Tuning) {
    e.Tick? && e.now == now && e.cfg == cfg && e.rttMs == input.rttMs && e.largeAlive == (input.warm && input.largeAlive)
  }

  /** The probe is outstanding exactly as it was sent, so its acknowledgement will be recognised. */
  predicate Outstanding(peers: Peers, intent: ProbeIntent) {
    && intent.peer in peers
    && peers[intent.peer].inflight.Some?
    && peers[intent.peer].inflight.value.probeId == intent.probeId
    && peers[intent.peer].inflight.value.size == intent.size
    && peers[intent.peer].searchGen == intent.searchGen
  }

  /** No peer gets two probes in one tick. */
  predicate ReportedOnce(intents: seq<ProbeIntent>) {
    forall i, j :: 0 <= i < j < |intents| ==> intents[i].peer != intents[j].peer
  }

  function Targets(intents: seq<ProbeIntent>): set<Endpoint> {
    set intent | intent in intents :: intent.peer
  }

  lemma TargetsAppend(intents: seq<ProbeIntent>, intent: ProbeIntent)
    ensures Targets(intents + [intent]) == Targets(intents) + {intent.peer}
  {
    assert forall x :: x in intents + [intent] <==> x in intents || x == intent;
    forall ep | ep in Targets(intents) + {intent.peer} ensures ep in Targets(intents + [intent]) {
      if ep == intent.peer {
        assert intent in intents + [intent];
      } else {
        var x :| x in intents && x.peer == ep;
        assert x in intents + [intent];
      }
    }
  }

  /** A peer that an acknowledgement from the same IP address, but another port, could belong to. */
  predicate Candidate(peers: Peers, ep: Endpoint, from: Endpoint, sz: nat, id: u32, gen: u32, now: nat) {
    ep in peers && ep.ip == from.ip && Accepts(peers[ep], sz, id, gen, now)
  }

  lemma StartTwice(p: PeerState, now: nat, cfg: Tuning)
    ensures StartStep(StartStep(p, now, cfg), now, cfg) == StartStep(p, now, cfg)
  {
  }

  /** Trying a second time in the same tick neither sends nor changes anything. */
  lemma IssueTwice(p: PeerState, now: nat, cfg: Tuning, id: u32, again: u32)
    ensures IssueStep(IssueStep(p, now, cfg, id), now, cfg, again) == IssueStep(p, now, cfg, id)
    ensures IssueSize(IssueStep(p, now, cfg, id), cfg).None?
  {
    hide TimeoutFor, RaiseTarget, BinaryTarget, EnterPlateau, FinishDownSearch, WindowClosed;
    EndedSearch(p, now, cfg);
  }

  lemma EndedSearch(p: PeerState, now: nat, cfg: Tuning)
    ensures EnterPlateau(p, now, cfg).phase.Plateau? && EnterPlateau(p, now, cfg).probesUsed == 0
    ensures FinishDownSearch(p, now, cfg).phase.Plateau? && FinishDownSearch(p, now, cfg).probesUsed == 0
  {
  }

  // ---------- facts about one stage, over all peers ----------

  lemma ConfirmedFailKeepsLastGood(isPrivate: bool, p: PeerState, size: nat, now: nat, cfg: Tuning)
    ensures !p.phase.Recheck? ==> ConfirmedFail(isPrivate, p, size, now, cfg).lastGood == p.lastGood
  {
    hide WindowClosed;
  }

  lemma TimeoutKeepsLastGood(isPrivate: bool, p: PeerState, now: nat, cfg: Tuning, id: u32)
    ensures TimeoutStep(isPrivate, p, now, cfg, id).lastGood == p.lastGood
  {
    hide ConfirmedFail, TimeoutFor;
    if TimeoutDue(p, now) {
      ConfirmedFailKeepsLastGood(isPrivate, p.(inflight := None), p.inflight.value.size, now, cfg);
    }
  }

  lemma IssueKeepsLastGood(p: PeerState, now: nat, cfg: Tuning, id: u32)
    ensures IssueStep(p, now, cfg, id).lastGood == p.lastGood
    ensures IssueSize(p, cfg).Some? <==> IssueStep(p, now, cfg, id).inflight.Some? && Idle(p)
  {
    hide TimeoutFor, RaiseTarget, BinaryTarget, WindowClosed;
  }

  /** The minimum only depends on the proven sizes. */
  lemma MinOverSame(m: nat, before: Peers, after: Peers, skip: set<Endpoint>)
    requires before.Keys == after.Keys
    requires forall ep :: ep in before ==> after[ep].lastGood == before[ep].lastGood
    requires IsMinOver(m, before, skip)
    ensures IsMinOver(m, after, skip)
  {
    if !(before.Keys <= skip) {
      var ep :| ep in before && ep !in skip && m == before[ep].lastGood;
      assert ep in after && ep !in skip && m == after[ep].lastGood;
    }
  }

  lemma MinOverInsert(m: nat, before: Peers, after: Peers, skip: set<Endpoint>, ep: Endpoint)
    requires skip <= before.Keys && after.Keys == before.Keys + {ep}
    requires forall x :: x in before ==> after[x].lastGood == before[x].lastGood
    requires IsMinOver(m, before, skip)
    ensures IsMinOver(m, after, if ep in before then skip else skip + {ep})
  {
    if !(before.Keys <= skip) {
      var low :| low in before && low !in skip && m == before[low].lastGood;
      assert low in after && low !in (if ep in before then skip else skip + {ep}) && m == after[low].lastGood;
    }
  }

  lemma MinOfDefaults(peers: Peers)
    requires forall ep :: ep in peers ==> peers[ep].lastGood == DEFAULT_MTU
    ensures IsMinOver(DEFAULT_MTU, peers, {})
  {
    if ep :| ep in peers {
      assert ep !in {} && peers[ep].lastGood == DEFAULT_MTU;
    }
  }

  const U32: nat := 0x1_0000_0000

  ghost predicate AllNumbered(lives: map<Endpoint, Life>, n: nat) {
    forall ep :: ep in lives ==> NumberedLife(IsPrivate(ep), lives[ep], n)
  }

  /** Between `lo` and `hi` ids drawn, this one was; it is exact until the counter wraps around. */
  predicate DrawnBetween(id: u32, lo: nat, hi: nat) {
    lo < hi && (hi < U32 ==> lo < id <= hi)
  }

  /** Events other than ticks send no probe. */
  lemma NumberedStep(lives: map<Endpoint, Life>, n: nat, ep: Endpoint, l: Life, e: Event)
    requires n < U32 ==> AllNumbered(lives, n)
    requires !e.Tick? && if ep in lives then l == lives[ep] else l.events == []
    ensures n < U32 ==> AllNumbered(lives[ep := Extended(l, e)], n)
  {
    hide NumberedLife, NumberedTick;
    if n < U32 {
      NoTickIsNumbered(IsPrivate(ep), StateOf(IsPrivate(ep), l), e, n);
      FreshIsNumbered(IsPrivate(ep), l, n);
      NumberedMore(IsPrivate(ep), l, e, n, n);
    }
  }

  lemma NumberedStepAll(lives: map<Endpoint, Life>, n: nat, e: Event)
    requires (n < U32 ==> AllNumbered(lives, n)) && !e.Tick?
    ensures n < U32 ==> AllNumbered(map ep | ep in lives :: Extended(lives[ep], e), n)
  {
    hide NumberedLife, NumberedTick;
    if n < U32 {
      forall ep | ep in lives
        ensures NumberedLife(IsPrivate(ep), Extended(lives[ep], e), n)
      {
        NoTickIsNumbered(IsPrivate(ep), StateOf(IsPrivate(ep), lives[ep]), e, n);
        NumberedMore(IsPrivate(ep), lives[ep], e, n, n);
      }
    }
  }

  lemma NoTickIsNumbered(isPrivate: bool, p: PeerState, e: Event, n: nat)
    requires !e.Tick?
    ensures NumberedTick(isPrivate, p, e, n)
  {
  }

  lemma NumberedUpTo(isPrivate: bool, p: PeerState, e: Event, n: nat, m: nat)
    requires NumberedTick(isPrivate, p, e, n) && n <= m
    ensures NumberedTick(isPrivate, p, e, m)
  {
  }

  lemma FreshIsNumbered(isPrivate: bool, l: Life, n: nat)
    ensures l.events == [] ==> NumberedLife(isPrivate, l, n)
  {
  }

  class PathMtuDiscovery {
    var peers: Peers
    var minPathMtu: nat
    var pinned: Option<nat>
    var probeIdCounter: u32
    var rrCursor: nat
    var cfg: Tuning
    /** Each tracked peer's history. */
    ghost var lives: map<Endpoint, Life>
    /** Peers that a tick inserted since the cached minimum was last recomputed. */
    ghost var uncounted: set<Endpoint>
    /** How many probe ids were drawn, without wrap-around. */
    ghost var issued: nat

    ghost predicate Valid()
      reads this
    {
      Tracked() && MinOk() && Numbered()
    }

    /** Until the counter wraps around, all outstanding probes have ids in 1..`issued`. */
    ghost predicate Numbered()
      reads this
    {
      && probeIdCounter == issued % U32
      && (issued < U32 ==> AllNumbered(lives, issued))
    }

    ghost predicate Tracked()
      reads this
    {
      && lives.Keys == peers.Keys
      && (forall ep :: ep in peers ==> Tracks(ep, peers[ep], lives[ep], cfg.resolveEpsilon))
      && (pinned.Some? ==> forall ep :: ep in peers ==> !IsSearching(peers[ep].phase))
    }

    ghost predicate MinOk()
      reads this
    {
      && uncounted <= peers.Keys
      && if pinned.Some? then
           minPathMtu == pinned.value && MIN_MTU <= minPathMtu <= MAX_MTU
         else
           && IsMinOver(minPathMtu, peers, uncounted)
           && (forall ep :: ep in uncounted ==> peers[ep].lastGood == DEFAULT_MTU)
    }

    constructor ()
      ensures Valid() && peers == map[] && pinned.None? && cfg == DEFAULT_TUNING && ClampedTuning(cfg) && issued == 0
    {
      peers := map[];
      minPathMtu := DEFAULT_MTU;
      pinned := None;
      probeIdCounter := 0;
      rrCursor := 0;
      cfg := DEFAULT_TUNING;
      lives := map[];
      uncounted := {};
      issued := 0;
    }

    /** Every tracked peer of every reachable engine has a sane search window. */
    lemma ReachablePeersAreSane(ep: Endpoint)
      requires Valid() && ep in peers
      ensures WindowInv(IsPrivate(ep), peers[ep])
    {
      EveryRunKeepsWindow(IsPrivate(ep), lives[ep]);
    }

    /** Until 2^32 probe ids were drawn no peer is wedged. */
    lemma NoPeerIsWedged(ep: Endpoint)
      requires Valid() && ep in peers && issued < U32
      ensures !Wedged(peers[ep])
    {
      OutstandingIsNumbered(IsPrivate(ep), lives[ep], issued);
    }

    /** Every peer of an unpinned engine with clamped tuning waits for something: its probe's answer or deadline, the end of
        a grace period, its turn to send the probe it wants, or its next search. */
    lemma NoPeerIsStuck(ep: Endpoint)
      requires Valid() && pinned.None? && ClampedTuning(cfg) && ep in peers
      ensures var p := peers[ep];
              p.inflight.Some? || p.grace.Some? || WantsProbe(p) || p.phase.Plateau? || p.phase.Frozen?
      ensures peers[ep].inflight.Some? && issued < U32 ==> peers[ep].inflight.value.probeId != 0
    {
      hide WindowInv, Searchable, WantsProbe;
      EveryRunKeepsWindow(IsPrivate(ep), lives[ep]);
      if IdleSearcher(peers[ep]) {
        SearchingPeerIssues(IsPrivate(ep), peers[ep], 0, cfg, 0);
      }
      if issued < U32 {
        NoPeerIsWedged(ep);
      }
    }

    lemma LivesAreNumbered(ep: Endpoint)
      requires Valid() && ep in peers && issued < U32
      ensures NumberedLife(IsPrivate(ep), lives[ep], 0xFFFF_FFFF)
    {
      hide NumberedTick, Run;
      forall i | 0 <= i < |lives[ep].events|
        ensures NumberedTick(IsPrivate(ep), Run(IsPrivate(ep), Fresh(lives[ep].bornAt, lives[ep].bornCfg), lives[ep].events[..i]),
                             lives[ep].events[i], 0xFFFF_FFFF)
      {
        NumberedUpTo(IsPrivate(ep), Run(IsPrivate(ep), Fresh(lives[ep].bornAt, lives[ep].bornCfg), lives[ep].events[..i]),
                     lives[ep].events[i], issued, 0xFFFF_FFFF);
      }
    }

    /** A search that event `k` of a peer's history started on a path with a fixed MTU has ended if enough of the events
        since then got on with it; event `n` was the end. */
    lemma SearchIsOver(ep: Endpoint, ceiling: nat, k: nat) returns (n: nat)
      requires Valid() && ep in peers && issued < U32 && ClampedTuning(cfg) && DEFAULT_MTU <= ceiling <= MAX_MTU
      requires k < |lives[ep].events|
      requires PmtudConvergence.RunRespects(IsPrivate(ep), ceiling, At(ep, 0), lives[ep].events)
      requires forall i :: k <= i < |lives[ep].events| ==> lives[ep].events[i].cfg == cfg && !lives[ep].events[i].Retune?
      requires !PmtudTermination.Hunting(At(ep, k).phase) && PmtudTermination.Hunting(At(ep, k + 1).phase)
      requires PmtudTermination.Work(IsPrivate(ep), At(ep, k + 1), lives[ep].events[k + 1..])
               >= PmtudTermination.RoundsOf(cfg) * (cfg.confirmCount + 1)
      ensures k < n <= |lives[ep].events| && !PmtudTermination.Hunting(At(ep, n).phase)
      ensures forall i :: k < i < n ==> PmtudTermination.Hunting(At(ep, i).phase)
      ensures PmtudTermination.Found(ceiling, At(ep, n), cfg) || At(ep, n).phase.Frozen?
      ensures PmtudTermination.RoundsOf(cfg) * cfg.confirmCount < cfg.maxProbes ==> PmtudTermination.Found(ceiling, At(ep, n), cfg)
    {
      hide NumberedLife, Run, Fresh, PmtudTermination.Work, PmtudTermination.RoundsOf, PmtudTermination.Found,
           PmtudConvergence.RunRespects, ClampedTuning;
      LivesAreNumbered(ep);
      Beginning(ep);
      n := PmtudTermination.SearchOfLifeEnds(IsPrivate(ep), ceiling, lives[ep], k, cfg);
    }

    /** The peer after the first `i` events of its history. */
    ghost function At(ep: Endpoint, i: nat): PeerState
      requires ep in lives && i <= |lives[ep].events|
      reads this
    {
      Run(IsPrivate(ep), Fresh(lives[ep].bornAt, lives[ep].bornCfg), lives[ep].events[..i])
    }

    lemma Beginning(ep: Endpoint)
      requires ep in lives
      ensures At(ep, 0) == Fresh(lives[ep].bornAt, lives[ep].bornCfg)
      ensures At(ep, |lives[ep].events|) == StateOf(IsPrivate(ep), lives[ep])
    {
      assert lives[ep].events[..|lives[ep].events|] == lives[ep].events;
    }

    /** With a budget above `confirmCount`, 280 searches under one tuning find a fixed path MTU exactly. */
    lemma SearchesFindTheMtu(ep: Endpoint, ceiling: nat)
      requires Valid() && ep in peers && issued < U32 && ClampedTuning(cfg) && DEFAULT_MTU <= ceiling <= MAX_MTU
      requires cfg.confirmCount < cfg.maxProbes && forall e :: e in lives[ep].events ==> e.cfg == cfg
      requires PmtudConvergence.RunRespects(IsPrivate(ep), ceiling, At(ep, 0), lives[ep].events)
      ensures PmtudTermination.Ended(IsPrivate(ep), At(ep, 0), lives[ep].events) >= MAX_MTU - DEFAULT_MTU ==>
                peers[ep].lastGood == ceiling
    {
      hide Run, Fresh, PmtudTermination.Ended, PmtudConvergence.RunRespects, ClampedTuning, PmtudTermination.IdsAreDrawn, NumberedTick;
      LivesAreNumbered(ep);
      Beginning(ep);
      forall i | 0 <= i < |lives[ep].events|
        ensures PmtudTermination.IdsAreDrawn(IsPrivate(ep), At(ep, i), lives[ep].events[i])
      {
        PmtudTermination.DrawnIsDrawn(IsPrivate(ep), At(ep, i), lives[ep].events[i]);
      }
      PmtudTermination.EverySearchLearns(IsPrivate(ep), ceiling, lives[ep], cfg);
    }

    /** The cached minimum can exceed the true one, exactly when a peer inserted since the last recomputation
        sits below it; capping it at the default is always safe. */
    lemma CachedMinimumAccuracy()
      requires Valid() && pinned.None?
      ensures IsMinOver(minPathMtu, peers, {}) <==> uncounted == {} || minPathMtu <= DEFAULT_MTU
      ensures forall ep :: ep in peers ==> Min(minPathMtu, DEFAULT_MTU) <= peers[ep].lastGood
    {
      hide Tracks, AllNumbered;
      if uncounted != {} {
        var newcomer :| newcomer in uncounted;
        assert newcomer in peers && newcomer !in {} && peers[newcomer].lastGood == DEFAULT_MTU;
        if !(peers.Keys <= uncounted) {
          var low :| low in peers && low !in uncounted && minPathMtu == peers[low].lastGood;
          assert low !in {};
        }
      }
    }

    method RecalcMin()
      modifies this`minPathMtu, this`uncounted
      ensures uncounted == {}
      ensures pinned.Some? ==> minPathMtu == pinned.value
      ensures pinned.None? ==> IsMinOver(minPathMtu, peers, {})
    {
      uncounted := {};
      if pinned.Some? {
        minPathMtu := pinned.value;
        return;
      }
      var best: Option<nat> := None;
      ghost var lowest: Option<Endpoint> := None;
      var todo := peers.Keys;
      while todo != {}
        invariant todo <= peers.Keys
        invariant best.None? <==> todo == peers.Keys
        invariant best.Some? ==> lowest.Some? && lowest.value in peers && peers[lowest.value].lastGood == best.value
        invariant best.Some? ==> forall ep :: ep in peers && ep !in todo ==> best.value <= peers[ep].lastGood
        decreases todo
      {
        var ep :| ep in todo;
        if best.None? || peers[ep].lastGood < best.value {
          best := Some(peers[ep].lastGood);
          lowest := Some(ep);
        }
        todo := todo - {ep};
        assert ep in peers && ep !in todo;
      }
      minPathMtu := if best.Some? then best.value else DEFAULT_MTU;
      assert best.Some? ==> lowest.value in peers && lowest.value !in {} && minPathMtu == peers[lowest.value].lastGood;
    }

    // ---------- events on one peer ----------

    /** Event `e` happens to one peer; the caller recomputes the minimum if `lastGood` moved. */
    method StepPeer(ep: Endpoint, e: Event)
      requires Valid() && pinned.None? && ep in peers && e.cfg == cfg && !e.Tick?
      modifies this`peers, this`lives
      ensures peers == old(peers)[ep := Step(IsPrivate(ep), old(peers)[ep], e)]
      ensures lives == old(lives)[ep := Extended(old(lives)[ep], e)]
      ensures Tracked() && Numbered() && uncounted <= peers.Keys
      ensures peers[ep].lastGood == old(peers)[ep].lastGood ==> Valid()
    {
      hide Step, IsMinOver, Tracks, Extended, AllNumbered;
      TracksStep(ep, peers[ep], lives[ep], e);
      NumberedStep(lives, issued, ep, lives[ep], e);
      ghost var before := peers;
      peers := peers[ep := Step(IsPrivate(ep), peers[ep], e)];
      lives := lives[ep := Extended(lives[ep], e)];
      if peers[ep].lastGood == before[ep].lastGood {
        MinOverSame(minPathMtu, before, peers, uncounted);
      }
    }

    /** Finds the peer an acknowledgement belongs to: the sender itself, or else the one peer at the same
        address that is waiting for exactly this acknowledgement. */
    method ResolveAck(from: Endpoint, sz: nat, id: u32, gen: u32, now: nat) returns (target: Option<Endpoint>)
      ensures target.Some? ==> target.value in peers
      ensures from in peers ==> target == Some(from)
      ensures from !in peers && target.Some? ==>
                forall ep :: Candidate(peers, ep, from, sz, id, gen, now) <==> ep == target.value
      ensures from !in peers && target.None? ==>
                !exists ep :: Candidate(peers, ep, from, sz, id, gen, now) &&
                  forall other :: Candidate(peers, other, from, sz, id, gen, now) ==> other == ep
    {
      hide Accepts;
      if from in peers {
        return Some(from);
      }
      target := None;
      var todo := peers.Keys;
      while todo != {}
        invariant todo <= peers.Keys
        invariant target.Some? ==> target.value !in todo && Candidate(peers, target.value, from, sz, id, gen, now)
        invariant forall ep :: Candidate(peers, ep, from, sz, id, gen, now) && ep !in todo ==> target == Some(ep)
        decreases todo
      {
        var ep :| ep in todo;
        todo := todo - {ep};
        if Candidate(peers, ep, from, sz, id, gen, now) {
          if target.Some? {
            return None;
          }
          target := Some(ep);
        }
      }
    }

    method OnAck(from: Endpoint, size: nat, id: u32, gen: u32, now: nat)
      returns (handled: bool, minChanged: bool, target: Option<Endpoint>)
      requires Valid()
      modifies this`peers, this`lives, this`minPathMtu, this`uncounted
      ensures Valid()
      ensures pinned.Some? ==> !handled
      ensures handled <==> pinned.None? && target.Some? && target.value in old(peers) &&
                           Accepts(old(peers)[target.value], ClampSize(size), id, gen, now)
      ensures pinned.None? && from in old(peers) ==> target == Some(from)
      ensures pinned.None? && from !in old(peers) && target.Some? ==>
                forall ep :: Candidate(old(peers), ep, from, ClampSize(size), id, gen, now) <==> ep == target.value
      ensures pinned.None? && from !in old(peers) && target.None? ==>
                !exists ep :: Candidate(old(peers), ep, from, ClampSize(size), id, gen, now) &&
                  forall other :: Candidate(old(peers), other, from, ClampSize(size), id, gen, now) ==> other == ep
      ensures !handled ==> peers == old(peers) && lives == old(lives) && minPathMtu == old(minPathMtu)
      ensures handled ==> peers == old(peers)[target.value := Step(IsPrivate(target.value), old(peers)[target.value],
                                                                   Ack(now, cfg, size, id, gen))]
      ensures handled ==> uncounted == {}
      ensures minChanged ==> handled && minPathMtu != old(minPathMtu)
    {
      hide Step, IsMinOver, Accepts, Tracks, Extended, MatchesGrace, AllNumbered;
      handled, minChanged, target := false, false, None;
      if pinned.Some? {
        return;
      }
      target := ResolveAck(from, ClampSize(size), id, gen, now);
      if target.None? || !Accepts(peers[target.value], ClampSize(size), id, gen, now) {
        return;
      }
      var ep := target.value;
      var late := MatchesGrace(peers[ep], ClampSize(size), id, gen, now);
      var oldMin := minPathMtu;
      StepPeer(ep, Ack(now, cfg, size, id, gen));
      RecalcMin();
      handled := true;
      minChanged := !late && minPathMtu != oldMin;
    }

    method OnSendHardFail(ep: Endpoint, id: u32, now: nat)
      requires Valid()
      modifies this`peers, this`lives, this`minPathMtu, this`uncounted
      ensures Valid()
      ensures peers == (if pinned.None? && ep in old(peers)
                        then old(peers)[ep := Step(IsPrivate(ep), old(peers)[ep], HardFail(now, cfg, id))]
                        else old(peers))
    {
      hide Step, IsMinOver, Tracks, Extended, AllNumbered;
      if pinned.None? && ep in peers {
        var softDown := HardFailHits(peers[ep], id) && (peers[ep].phase.Revalidate? || peers[ep].phase.Recheck?);
        HardFailKeepsLastGood(IsPrivate(ep), peers[ep], id, now, cfg);
        StepPeer(ep, HardFail(now, cfg, id));
        if softDown {
          RecalcMin();
        }
      }
    }

    method RemovePeer(ep: Endpoint)
      requires Valid()
      modifies this`peers, this`lives, this`minPathMtu, this`uncounted
      ensures Valid() && peers == old(peers) - {ep} && lives == old(lives) - {ep}
    {
      hide IsMinOver, Tracks;
      if ep in peers {
        peers := peers - {ep};
        lives := lives - {ep};
        RecalcMin();
      } else {
        assert peers - {ep} == peers && lives - {ep} == lives;
      }
    }

    method SeedPlateauAt(ep: Endpoint, mtu: nat, now: nat)
      requires Valid()
      modifies this`peers, this`lives, this`minPathMtu, this`uncounted
      ensures Valid() && uncounted == {}
      ensures peers == old(peers)[ep := Step(IsPrivate(ep), Before(old(peers), ep, now, cfg), Seed(now, cfg, mtu))]
    {
      hide IsMinOver, Tracks, Step, Fresh, Extended, AllNumbered;
      ghost var l := if ep in peers then lives[ep] else Life(now, cfg, []);
      var p := Before(peers, ep, now, cfg);
      if ep !in peers {
        TracksFresh(ep, now, cfg);
      }
      SeedPhase(IsPrivate(ep), p, now, cfg, mtu);
      TracksStep(ep, p, l, Seed(now, cfg, mtu));
      NumberedStep(lives, issued, ep, l, Seed(now, cfg, mtu));
      peers := peers[ep := Step(IsPrivate(ep), p, Seed(now, cfg, mtu))];
      lives := lives[ep := Extended(l, Seed(now, cfg, mtu))];
      RecalcMin();
    }

    method RequestRevalidate(ep: Endpoint, now: nat) returns (taken: bool)
      requires Valid()
      modifies this`peers, this`lives
      ensures Valid()
      ensures taken <==> pinned.None? && ep in old(peers) && HintTakes(old(peers)[ep], now)
      ensures !taken ==> peers == old(peers)
      ensures taken ==> peers == old(peers)[ep := old(peers)[ep].(nextRaiseAt := now, lastHintAt := Some(now))]
    {
      hide IsMinOver, Tracks, Extended, AllNumbered;
      taken := pinned.None? && ep in peers && HintTakes(peers[ep], now);
      if taken {
        StepPeer(ep, Hint(now, cfg));
      }
    }

    method RequestEarlyWake(ep: Endpoint, now: nat) returns (taken: bool)
      requires Valid()
      modifies this`peers, this`lives
      ensures Valid()
      ensures taken <==> pinned.None? && ep in old(peers) && WakeTakes(old(peers)[ep], now)
      ensures !taken ==> peers == old(peers)
      ensures taken ==> peers == old(peers)[ep := old(peers)[ep].(nextRaiseAt := now, lastWakeAt := Some(now))]
    {
      hide IsMinOver, Tracks, Extended, AllNumbered;
      taken := pinned.None? && ep in peers && WakeTakes(peers[ep], now);
      if taken {
        StepPeer(ep, EarlyWake(now, cfg));
      }
    }

    // ---------- events on all peers at once ----------

    method ApplyTuning(t: Tuning, now: nat)
      requires Valid()
      modifies this`peers, this`lives, this`cfg
      ensures Valid() && cfg == t.(raisePeriod := old(cfg).raisePeriod)
      ensures peers.Keys == old(peers).Keys
      ensures forall ep :: ep in peers ==>
                peers[ep] == if pinned.Some? then old(peers)[ep] else Step(IsPrivate(ep), old(peers)[ep], Retune(now, cfg))
    {
      hide IsMinOver, Tracks, Step, Extended, AllNumbered;
      ghost var was := peers;
      ghost var e := Retune(now, t.(raisePeriod := cfg.raisePeriod));
      forall ep | ep in peers
        ensures Tracks(ep, Step(IsPrivate(ep), peers[ep], e), Extended(lives[ep], e), e.cfg.resolveEpsilon)
        ensures pinned.Some? ==> Tracks(ep, peers[ep], lives[ep], e.cfg.resolveEpsilon)
      {
        RetunedTracks(ep, peers[ep], lives[ep], cfg.resolveEpsilon, e);
      }
      NumberedStepAll(lives, issued, e);
      cfg := t.(raisePeriod := cfg.raisePeriod);
      if pinned.None? {
        forall ep | ep in peers {
          RetuneKeepsLastGood(IsPrivate(ep), peers[ep], now, cfg);
        }
        peers := map ep | ep in peers :: Step(IsPrivate(ep), peers[ep], Retune(now, cfg));
        lives := map ep | ep in lives :: Extended(lives[ep], e);
        MinOverSame(minPathMtu, was, peers, uncounted);
      }
    }

    method SetRaisePeriod(secs: nat)
      requires Valid()
      modifies this`cfg
      ensures Valid() && cfg == old(cfg).(raisePeriod := Max(secs, 1) * 1_000)
    {
      hide IsMinOver, Tracks, AllNumbered;
      cfg := cfg.(raisePeriod := Max(secs, 1) * 1_000);
    }

    method SetPinned(mtu: Option<nat>, now: nat)
      requires Valid()
      modifies this`peers, this`lives, this`minPathMtu, this`uncounted, this`pinned
      ensures Valid() && peers.Keys == old(peers).Keys && uncounted == {}
      ensures pinned == if mtu.Some? then Some(ClampSize(mtu.value)) else None
      ensures minPathMtu == if mtu.Some? then ClampSize(mtu.value) else DEFAULT_MTU
      ensures forall ep :: ep in peers ==>
                peers[ep] == Step(IsPrivate(ep), old(peers)[ep], if mtu.Some? then Pin(now, cfg, mtu.value) else Unpin(now, cfg))
    {
      hide Tracks, Step, IsMinOver, AllNumbered;
      uncounted := {};
      if mtu.Some? {
        OverwriteAll(Pin(now, cfg, mtu.value));
        pinned, minPathMtu := Some(ClampSize(mtu.value)), ClampSize(mtu.value);
      } else {
        OverwriteAll(Unpin(now, cfg));
        pinned, minPathMtu := None, DEFAULT_MTU;
        MinOfDefaults(peers);
      }
    }

    /** A pin or an unpin happens to every peer. */
    method OverwriteAll(e: Event)
      requires Tracked() && Numbered() && e.cfg == cfg && (e.Pin? || e.Unpin?)
      modifies this`peers, this`lives
      ensures Tracked() && Numbered() && peers.Keys == old(peers).Keys
      ensures forall ep :: ep in peers ==> peers[ep] == Step(IsPrivate(ep), old(peers)[ep], e)
      ensures forall ep :: ep in peers ==> !IsSearching(peers[ep].phase)
      ensures e.Unpin? ==> forall ep :: ep in peers ==> peers[ep].lastGood == DEFAULT_MTU
    {
      hide Tracks, Step, Extended, AllNumbered;
      NumberedStepAll(lives, issued, e);
      forall ep | ep in peers
        ensures Tracks(ep, Step(IsPrivate(ep), peers[ep], e), Extended(lives[ep], e), cfg.resolveEpsilon)
      {
        TracksStep(ep, peers[ep], lives[ep], e);
      }
      forall ep | ep in peers {
        PinOutcome(IsPrivate(ep), peers[ep], e);
      }
      lives := map ep | ep in lives :: Extended(lives[ep], e);
      peers := map ep | ep in peers :: Step(IsPrivate(ep), peers[ep], e);
    }

    // ---------- the tick, stage by stage ----------

    /** `apply_timeout_confirmed_fail`: only a failed recheck moves `lastGood`. */
    method ApplyConfirmedFail(ep: Endpoint, size: nat, now: nat)
      requires pinned.None? && MinOk() && ep in peers
      modifies this`peers, this`minPathMtu, this`uncounted
      ensures MinOk() && peers == old(peers)[ep := ConfirmedFail(IsPrivate(ep), old(peers)[ep], size, now, cfg)]
      ensures !old(peers)[ep].phase.Recheck? ==> minPathMtu == old(minPathMtu) && uncounted == old(uncounted)
    {
      hide ConfirmedFail, IsMinOver;
      ghost var was := peers;
      var recheck := peers[ep].phase.Recheck?;
      ConfirmedFailKeepsLastGood(IsPrivate(ep), peers[ep], size, now, cfg);
      peers := peers[ep := ConfirmedFail(IsPrivate(ep), peers[ep], size, now, cfg)];
      if recheck {
        RecalcMin();
      } else {
        MinOverSame(minPathMtu, was, peers, uncounted);
      }
    }

    method ExpireGrace(now: nat)
      requires pinned.None? && MinOk()
      modifies this`peers, this`minPathMtu, this`uncounted
      ensures MinOk() && peers.Keys == old(peers).Keys
      ensures forall ep :: ep in peers ==> peers[ep] == GraceStep(IsPrivate(ep), old(peers)[ep], now, cfg)
      ensures (forall ep :: ep in old(peers) && GraceDue(old(peers)[ep], now) ==> !old(peers)[ep].phase.Recheck?) ==>
                minPathMtu == old(minPathMtu)
    {
      hide ConfirmedFail, IsMinOver;
      var todo := set ep | ep in peers && GraceDue(peers[ep], now);
      while todo != {}
        invariant todo <= peers.Keys == old(peers).Keys && MinOk()
        invariant forall ep :: ep in peers ==>
                    peers[ep] == if ep in todo then old(peers)[ep] else GraceStep(IsPrivate(ep), old(peers)[ep], now, cfg)
        invariant forall ep :: ep in todo ==> GraceDue(old(peers)[ep], now)
        invariant (forall ep :: ep in old(peers) && GraceDue(old(peers)[ep], now) ==> !old(peers)[ep].phase.Recheck?) ==>
                    minPathMtu == old(minPathMtu)
        decreases todo
      {
        var ep :| ep in todo;
        var size := peers[ep].grace.value.size;
        ghost var was := peers;
        peers := peers[ep := peers[ep].(grace := None)];
        MinOverSame(minPathMtu, was, peers, uncounted);
        ApplyConfirmedFail(ep, size, now);
        todo := todo - {ep};
      }
    }

    /** The id is 0 exactly if 2^32 divides the number of ids drawn so far. */
    method NextProbeId() returns (id: u32)
      requires probeIdCounter == issued % U32
      modifies this`probeIdCounter, this`issued
      ensures issued == old(issued) + 1 && id == probeIdCounter == issued % U32
      ensures DrawnBetween(id, old(issued), issued)
    {
      probeIdCounter, issued := NextGen(probeIdCounter), issued + 1;
      id := probeIdCounter;
    }

    /** `on_timeout` for a due probe: sends it again while confirmations and budget remain. */
    method OnTimeout(ep: Endpoint, now: nat) returns (intent: Option<ProbeIntent>, ghost id: u32)
      requires pinned.None? && MinOk() && ep in peers && probeIdCounter == issued % U32
      modifies this`peers, this`probeIdCounter, this`issued
      ensures MinOk() && peers == old(peers)[ep := TimeoutStep(IsPrivate(ep), old(peers)[ep], now, cfg, id)]
      ensures probeIdCounter == issued % U32 && issued == old(issued) + if intent.Some? then 1 else 0
      ensures intent.Some? ==> DrawnBetween(id, old(issued), issued)
      ensures intent.Some? <==> Resends(old(peers)[ep], now, cfg)
      ensures intent.Some? ==> intent.value.peer == ep && Outstanding(peers, intent.value)
    {
      hide TimeoutStep, IsMinOver, Resends;
      var p := peers[ep];
      var nextId: u32 := 0;
      if Resends(p, now, cfg) {
        nextId := NextProbeId();
      }
      id := nextId;
      var q := TimeoutStep(IsPrivate(ep), p, now, cfg, nextId);
      TimeoutKeepsLastGood(IsPrivate(ep), p, now, cfg, id);
      ghost var was := peers;
      peers := peers[ep := q];
      MinOverSame(minPathMtu, was, peers, uncounted);
      intent := None;
      if Resends(p, now, cfg) {
        ResendIsOutstanding(IsPrivate(ep), p, now, cfg, id);
        intent := Some(ProbeIntent(ep, q.inflight.value.size, nextId, q.searchGen));
      }
    }

    /** Handles every due probe timeout.  `ids` gives the probe id each peer was offered. */
    method ExpireProbes(now: nat) returns (intents: seq<ProbeIntent>, ghost ids: map<Endpoint, u32>)
      requires pinned.None? && MinOk() && probeIdCounter == issued % U32
      modifies this`peers, this`probeIdCounter, this`issued
      ensures MinOk() && Expired(old(peers), peers, {}, now, cfg, ids, intents)
      ensures probeIdCounter == issued % U32 && issued == old(issued) + |intents| && DrawnFor(intents, ids, old(issued), issued)
    {
      hide TimeoutStep, IsMinOver, TimeoutDue, Resends, Expired, DrawnFor, Outstanding, Targets;
      intents := [];
      ids := map ep | ep in peers :: 0;
      var todo := set ep | ep in peers && TimeoutDue(peers[ep], now);
      NothingExpired(peers, todo, now, cfg, ids);
      NothingDrawn(ids, issued);
      while todo != {}
        invariant MinOk() && todo <= peers.Keys && Expired(old(peers), peers, todo, now, cfg, ids, intents)
        invariant probeIdCounter == issued % U32 && issued == old(issued) + |intents| && DrawnFor(intents, ids, old(issued), issued)
        decreases todo
      {
        var ep :| ep in todo;
        ghost var was, before := peers, issued;
        var intent, id := OnTimeout(ep, now);
        ExpiredNext(old(peers), was, peers, todo, now, cfg, ids, intents, ep, id, intent);
        ResentNext(intents, ids, ep, id, intent, old(issued), before, issued);
        ids := ids[ep := id];
        todo := todo - {ep};
        if intent.Some? {
          intents := intents + [intent.value];
        }
      }
    }

    /** First part of a tick: heal, forget peers that are no longer routed, admit new ones, note the inputs. */
    method Admit(inputs: seq<TickInput>, now: nat)
      requires pinned.None? && MinOk()
      modifies this`peers, this`minPathMtu, this`uncounted
      ensures MinOk() && peers.Keys == Addrs(inputs)
      ensures forall ep :: ep in peers ==> peers[ep] == Admitted(old(peers), inputs, ep, now, cfg)
      ensures old(peers).Keys <= Addrs(inputs) && (forall ep :: ep in old(peers) ==> !NeedsHeal(IsPrivate(ep), old(peers)[ep])) ==>
                minPathMtu == old(minPathMtu)
    {
      hide NeedsHeal, IsMinOver, AdmittedSoFar, Admitted, InputStep, Before;
      HealRouted(Addrs(inputs), now);
      ghost var quiet := minPathMtu;
      NothingAdmitted(old(peers), peers, now, cfg);
      for i := 0 to |inputs|
        invariant MinOk() && minPathMtu == quiet && AdmittedSoFar(old(peers), peers, inputs[..i], now, cfg)
        invariant forall ep :: ep in peers ==> ep in Addrs(inputs)
        invariant forall ep :: ep in old(peers) && ep in Addrs(inputs) ==> ep in peers
      {
        assert AddrSeq(inputs)[i] == inputs[i].addr;
        assert inputs[..i + 1] == inputs[..i] + [inputs[i]];
        AdmitNext(old(peers), peers, inputs[..i], inputs[i], now, cfg);
        AdmitInput(inputs[i], now);
      }
      assert inputs[..|inputs|] == inputs;
      AllAdmitted(old(peers), peers, inputs, now, cfg);
    }

    method HealRouted(active: set<Endpoint>, now: nat)
      requires pinned.None? && MinOk()
      modifies this`peers, this`minPathMtu, this`uncounted
      ensures MinOk() && peers.Keys == old(peers).Keys * active
      ensures forall ep :: ep in peers ==> peers[ep] == Heal(IsPrivate(ep), old(peers)[ep], now, cfg)
      ensures old(peers).Keys <= active && (forall ep :: ep in old(peers) ==> !NeedsHeal(IsPrivate(ep), old(peers)[ep])) ==>
                minPathMtu == old(minPathMtu)
    {
      hide IsMinOver;
      ghost var was := peers;
      var sick := set ep | ep in peers && NeedsHeal(IsPrivate(ep), peers[ep]);
      peers := map ep | ep in peers :: Heal(IsPrivate(ep), peers[ep], now, cfg);
      if sick != {} {
        RecalcMin();
      } else {
        assert forall ep :: ep in was ==> ep !in sick;
        MinOverSame(minPathMtu, was, peers, uncounted);
      }
      var stale := peers.Keys - active;
      if stale != {} {
        peers := peers - stale;
        RecalcMin();
      }
    }

    /** `ensure_peer` followed by the two assignments of the tick; a new peer does not touch the cached minimum. */
    method AdmitInput(input: TickInput, now: nat)
      requires pinned.None? && MinOk()
      modifies this`peers, this`uncounted
      ensures MinOk()
      ensures peers == old(peers)[input.addr := InputStep(Before(old(peers), input.addr, now, cfg), input.rttMs,
                                                          input.warm && input.largeAlive)]
    {
      ghost var was := peers;
      if input.addr !in peers {
        uncounted := uncounted + {input.addr};
      }
      peers := peers[input.addr := InputStep(Before(peers, input.addr, now, cfg), input.rttMs, input.warm && input.largeAlive)];
      MinOverInsert(minPathMtu, was, peers, old(uncounted), input.addr);
    }

    method StartSearches(eps: seq<Endpoint>, now: nat)
      requires pinned.None? && MinOk() && forall ep :: ep in eps ==> ep in peers
      modifies this`peers
      ensures MinOk() && peers.Keys == old(peers).Keys
      ensures forall ep :: ep in peers ==> peers[ep] == if ep in eps then StartStep(old(peers)[ep], now, cfg) else old(peers)[ep]
    {
      hide StartStep, IsMinOver;
      for i := 0 to |eps|
        invariant MinOk() && peers.Keys == old(peers).Keys
        invariant forall ep :: ep in peers ==>
                    peers[ep] == if ep in eps[..i] then StartStep(old(peers)[ep], now, cfg) else old(peers)[ep]
      {
        ghost var was := peers;
        assert eps[..i + 1] == eps[..i] + [eps[i]];
        StartTwice(old(peers)[eps[i]], now, cfg);
        StartKeepsLastGood(peers[eps[i]], now, cfg);
        peers := peers[eps[i] := StartStep(peers[eps[i]], now, cfg)];
        MinOverSame(minPathMtu, was, peers, uncounted);
      }
      assert eps[..|eps|] == eps;
    }

    /** `issue_probe`. */
    method IssueProbe(ep: Endpoint, now: nat) returns (intent: Option<ProbeIntent>, ghost id: u32)
      requires pinned.None? && MinOk() && ep in peers && probeIdCounter == issued % U32
      modifies this`peers, this`probeIdCounter, this`issued
      ensures MinOk() && peers == old(peers)[ep := IssueStep(old(peers)[ep], now, cfg, id)]
      ensures probeIdCounter == issued % U32 && issued == old(issued) + if intent.Some? then 1 else 0
      ensures intent.Some? ==> DrawnBetween(id, old(issued), issued)
      ensures intent.Some? <==> IssueSize(old(peers)[ep], cfg).Some?
      ensures intent.Some? ==> intent.value.peer == ep && Outstanding(peers, intent.value)
    {
      hide IssueStep, IssueSize, IsMinOver;
      var p := peers[ep];
      var nextId: u32 := 0;
      if IssueSize(p, cfg).Some? {
        nextId := NextProbeId();
      }
      id := nextId;
      var q := IssueStep(p, now, cfg, nextId);
      IssueKeepsLastGood(p, now, cfg, id);
      ghost var was := peers;
      peers := peers[ep := q];
      MinOverSame(minPathMtu, was, peers, uncounted);
      intent := None;
      if IssueSize(p, cfg).Some? {
        IssuedIsOutstanding(p, now, cfg, id);
        intent := Some(ProbeIntent(ep, q.inflight.value.size, nextId, q.searchGen));
      }
    }

    /** Sends at most `cap` probes, round robin from the cursor on.  `tried` are the peers at the first `visited` positions. */
    method IssueProbes(want: seq<Endpoint>, cap: nat, now: nat)
      returns (intents: seq<ProbeIntent>, ghost ids: map<Endpoint, u32>, ghost tried: set<Endpoint>, ghost visited: nat)
      requires pinned.None? && MinOk() && want != [] && forall ep :: ep in want ==> ep in peers
      requires probeIdCounter == issued % U32
      modifies this`peers, this`probeIdCounter, this`rrCursor, this`issued
      ensures probeIdCounter == issued % U32 && issued == old(issued) + |intents|
      ensures DrawnFor(intents, ids, old(issued), issued)
      ensures MinOk() && Issued(old(peers), peers, now, cfg, ids, tried, intents)
      ensures TriedInTurn(want, StartAt(old(rrCursor), |want|), visited, tried)
      ensures rrCursor == NextCursor(old(rrCursor), |want|, |intents|)
      ensures |intents| <= visited <= |want| && |intents| <= cap && (|intents| == cap || visited == |want|)
      ensures (forall ep :: ep in tried ==> ep in want) && (visited == |want| ==> forall ep :: ep in want ==> ep in tried)
    {
      hide Issued, IsMinOver, TriedInTurn, IssueStep, IssueSize, DrawnFor, Outstanding, DrawnBetween, Position;
      intents, tried := [], {};
      ids := map ep | ep in peers :: 0;
      if rrCursor >= |want| {
        rrCursor := 0;
      }
      var i := 0;
      NobodyTried(want, rrCursor);
      NothingIssued(peers, now, cfg, ids);
      NothingDrawn(ids, issued);
      while i < |want| && |intents| < cap
        invariant |intents| <= i <= |want| && |intents| <= cap && rrCursor == StartAt(old(rrCursor), |want|)
        invariant MinOk() && peers.Keys == old(peers).Keys && Issued(old(peers), peers, now, cfg, ids, tried, intents)
        invariant probeIdCounter == issued % U32 && issued == old(issued) + |intents| && DrawnFor(intents, ids, old(issued), issued)
        invariant TriedInTurn(want, rrCursor, i, tried)
      {
        NextTried(want, rrCursor, i, tried);
        var ep := want[Position(rrCursor, i, |want|)];
        ghost var was, before := peers, issued;
        var intent, id := IssueProbe(ep, now);
        IssuedNext(old(peers), was, now, cfg, ids, tried, intents, ep, id, intent);
        DrawnNext(old(peers), was, now, cfg, ids, tried, intents, ep, id, intent, old(issued), before, issued);
        ids := if ep in tried then ids else ids[ep := id];
        tried := tried + {ep};
        intents := if intent.Some? then intents + [intent.value] else intents;
        i := i + 1;
      }
      TriedAreWanting(want, rrCursor, i, tried);
      if i == |want| {
        AllTried(want, rrCursor, tried);
      }
      visited := i;
      rrCursor := rrCursor + Max(|intents|, 1);
    }

    method Wanting(eps: seq<Endpoint>) returns (want: seq<Endpoint>)
      ensures forall ep :: ep in want <==> ep in eps && ep in peers && WantsProbe(peers[ep])
    {
      hide WantsProbe;
      want := [];
      for i := 0 to |eps|
        invariant forall ep :: ep in want <==> ep in eps[..i] && ep in peers && WantsProbe(peers[ep])
      {
        assert eps[..i + 1] == eps[..i] + [eps[i]];
        if eps[i] in peers && WantsProbe(peers[eps[i]]) {
          want := want + [eps[i]];
        }
      }
      assert eps[..|eps|] == eps;
    }

    /** The second half of a tick: start due searches and send new probes into the remaining slots. */
    method Probe(eps: seq<Endpoint>, already: nat, now: nat)
      returns (intents: seq<ProbeIntent>, ghost ids: map<Endpoint, u32>, ghost tried: set<Endpoint>)
      requires pinned.None? && MinOk() && (forall ep :: ep in eps <==> ep in peers) && probeIdCounter == issued % U32
      modifies this`peers, this`probeIdCounter, this`rrCursor, this`issued
      ensures MinOk() && Probed(old(peers), peers, now, cfg, cfg.maxConcurrent - already, ids, tried, intents)
      ensures probeIdCounter == issued % U32 && issued == old(issued) + |intents| && DrawnFor(intents, ids, old(issued), issued)
    {
      hide StartStep, IssueStep, IssueSize, WantsProbe, IsMinOver, Outstanding, Targets, DrawnFor;
      StartSearches(eps, now);
      var want := Wanting(eps);
      if want == [] {
        intents, ids, tried := [], map ep | ep in peers :: 0, {};
        NothingDrawn(ids, issued);
        assert forall ep :: ep in peers ==> ep !in want;
        return;
      }
      ghost var visited;
      intents, ids, tried, visited := IssueProbes(want, Min(Max(cfg.maxConcurrent - already, 0), |want|), now);
    }

    /** The stages that may lower a peer: admission with healing, and expired grace periods. */
    method Settle(inputs: seq<TickInput>, now: nat)
      requires pinned.None? && MinOk()
      modifies this`peers, this`minPathMtu, this`uncounted
      ensures MinOk() && SettledPeers(old(peers), peers, inputs, now, cfg)
      ensures Quiet(old(peers), inputs) ==> minPathMtu == old(minPathMtu)
    {
      hide GraceStep, IsMinOver, Admitted, NeedsHeal;
      Admit(inputs, now);
      if Quiet(old(peers), inputs) {
        forall ep | ep in peers
          ensures !(peers[ep].grace.Some? && peers[ep].phase.Recheck?)
        {
          QuietAdmitted(old(peers), inputs, ep, now, cfg);
        }
      }
      ExpireGrace(now);
    }

    /** All stages of an unpinned tick.  `plan` is the tick as each peer experienced it. */
    method RunStages(inputs: seq<TickInput>, now: nat) returns (intents: seq<ProbeIntent>, ghost plan: map<Endpoint, Event>)
      requires pinned.None? && MinOk() && probeIdCounter == issued % U32
      modifies this`peers, this`minPathMtu, this`uncounted, this`probeIdCounter, this`rrCursor, this`issued
      ensures MinOk() && PlanOk(old(peers), peers, plan, inputs, now, cfg, intents, issued)
      ensures probeIdCounter == issued % U32 && issued == old(issued) + |intents|
      ensures Quiet(old(peers), inputs) ==> minPathMtu == old(minPathMtu)
    {
      hide Quiet, Probed, PlanOk, IsMinOver, DrawnFor, AddrSeq, TimeoutStep, GraceStep, Admitted, Resends, Outstanding, Targets;
      Settle(inputs, now);
      ghost var graced := peers;
      var resent, resendIds := ExpireProbes(now);
      ghost var timed, drawn := peers, issued;
      var eps := AddrSeq(inputs);
      var sent, issueIds, tried := Probe(eps, |resent|, now);
      intents := resent + sent;
      plan := MakePlan(old(peers), graced, timed, peers, inputs, now, cfg, resent, resendIds, sent, tried, issueIds,
                       old(issued), drawn, issued);
    }

    method OnTick(inputs: seq<TickInput>, now: nat) returns (intents: seq<ProbeIntent>)
      requires Valid()
      modifies this`peers, this`lives, this`minPathMtu, this`uncounted, this`probeIdCounter, this`rrCursor, this`issued
      ensures Valid() && issued == old(issued) + |intents|
      ensures pinned.Some? ==> intents == [] && peers == old(peers)
      // Exactly the routed peers are tracked, and each has lived through exactly one tick.
      ensures pinned.None? ==> peers.Keys == Addrs(inputs)
      ensures pinned.None? ==> forall ep :: ep in peers ==>
                Ticked(old(peers), old(lives), ep, LastInput(inputs, ep), now, cfg, lives[ep])
      ensures pinned.None? ==> forall ep :: ep in peers ==> AboveFloor(IsPrivate(ep), peers[ep])
      // Every probe that is reported is outstanding, and every new outstanding probe is reported.
      ensures forall intent :: intent in intents ==> Outstanding(peers, intent)
      ensures pinned.None? ==> forall ep :: ep in peers && Busier(Before(old(peers), ep, now, cfg), peers[ep]) ==>
                                              ep in Targets(intents)
      ensures ReportedOnce(intents) && (pinned.None? ==> Capped(old(peers), cfg, intents))
      // A due peer is moved, unless it is wedged or waits for its turn to send and the slots were used up.
      ensures pinned.None? && ClampedTuning(cfg) ==>
                forall ep :: ep in peers && ep in old(peers) ==>
                               DueIsMoved(old(peers)[ep], peers[ep], now, |intents| < cfg.maxConcurrent)
      // A tick that leaves slots unused leaves no peer waiting for its turn.
      ensures pinned.None? && ClampedTuning(cfg) && |intents| < cfg.maxConcurrent ==>
                forall ep :: ep in peers ==> !IdleSearcher(peers[ep])
      // A peer that the tick inserts starts at the default, which alone does not change the cached minimum.
      ensures pinned.None? ==> forall ep :: ep in peers && ep !in old(peers) ==> peers[ep].lastGood == DEFAULT_MTU
      ensures Quiet(old(peers), inputs) ==> minPathMtu == old(minPathMtu)
    {
      hide Quiet, Fresh, Step, Tracks, IsMinOver, Outstanding, Targets, Before, LastInput, Busier, AboveFloor, Ticked, Extended, TickOf,
           AllNumbered, Planned, DueIsMoved, ClampedTuning, Addrs, LifeOf, Capped, IdleSearcher;
      if pinned.Some? {
        return [];
      }
      ghost var plan;
      intents, plan := RunStages(inputs, now);
      PlanOutcome(old(peers), peers, lives, plan, inputs, now, cfg, intents, old(issued), issued);
      lives := map ep | ep in peers :: Extended(LifeOf(old(peers), old(lives), ep, now, cfg), plan[ep]);
    }

    /** The engine sleeps until this time.  It is never later than the moment any peer needs a tick, and it is
        never earlier than it has to be. */
    method NextDeadline(now: nat) returns (next: nat)
      ensures next <= now + cfg.raisePeriod
      ensures forall ep :: ep in peers ==> next <= Max(now, DueAt(peers[ep])) && next <= WakeAt(peers[ep], now)
      ensures next == now + cfg.raisePeriod || exists ep :: ep in peers && next == WakeAt(peers[ep], now)
    {
      next := now + cfg.raisePeriod;
      var todo := peers.Keys;
      while todo != {}
        invariant todo <= peers.Keys
        invariant next <= now + cfg.raisePeriod
        invariant forall ep :: ep in peers && ep !in todo ==> next <= WakeAt(peers[ep], now)
        invariant next == now + cfg.raisePeriod || exists ep :: ep in peers && ep !in todo && next == WakeAt(peers[ep], now)
        decreases todo
      {
        var ep :| ep in todo;
        todo := todo - {ep};
        next := Min(next, WakeAt(peers[ep], now));
        assert ep in peers && ep !in todo;
      }
    }
  }

  lemma TickedState(peers: Peers, lives: map<Endpoint, Life>, ep: Endpoint, input: TickInput, now: nat, cfg: Tuning, after: Life,
                    q: PeerState) returns (e: Event)
    requires ep in peers ==> ep in lives && Tracks(ep, peers[ep], lives[ep], cfg.resolveEpsilon)
    requires Ticked(peers, lives, ep, input, now, cfg, after) && Tracks(ep, q, after, cfg.resolveEpsilon)
    ensures TickOf(e, input, now, cfg) && q == Step(IsPrivate(ep), Before(peers, ep, now, cfg), e)
  {
    hide Step, Searchable, Fresh, TickOf;
    var l := if ep in peers then lives[ep] else Life(now, cfg, []);
    e := after.events[|l.events|];
    ExtendedState(IsPrivate(ep), l, e);
    TracksFresh(ep, now, cfg);
  }

  /** A new peer waits for one raise period; the tick after that, if it leaves it not idle, has sent a probe of 1252. */
  lemma FirstProbe(isPrivate: bool, now: nat, p: PeerState, q: PeerState, e: Event, f: Event)
    requires e.Tick? && f.Tick? && e.now == now && f.now == now + DEFAULT_TUNING.raisePeriod && e.cfg == f.cfg == DEFAULT_TUNING
    requires p == Step(isPrivate, Fresh(now, DEFAULT_TUNING), e) && q == Step(isPrivate, p, f) && !IdleSearcher(q)
    ensures Busier(p, q) && q.phase.Raise? && q.lastGood == q.stable == 1220 && q.firstBad == 1501 && q.step == 32
    ensures q.inflight.value.size == 1252 && q.grace.None?
  {
    hide TimeoutFor;
    assert p == InputStep(Fresh(now, DEFAULT_TUNING), e.rttMs, e.largeAlive);
    var d := BeforeIssue(isPrivate, p, f);
    assert d.phase.Raise? && Idle(d) && RaiseTarget(d) == Some(1252) && WantsProbe(d) && f.tryIssue;
  }

  /** Its acknowledgement raises the peer to 1252. */
  lemma FirstAck(isPrivate: bool, p: PeerState, now: nat, id: u32, gen: u32)
    requires p.phase.Raise? && p.lastGood == p.stable == 1220 && p.firstBad == 1501 && p.step == 32 && p.grace.None?
    requires MatchesInflight(p, 1252, id, gen)
    ensures Accepts(p, 1252, id, gen, now)
    ensures var q := Step(isPrivate, p, Ack(now, DEFAULT_TUNING, 1252, id, gen));
            q.lastGood == 1252 && q.grace.None? && !NeedsHeal(isPrivate, q)
  {
  }

  /** Two ticks, one raise period apart, for a lone peer. */
  method ProbedPeerOf(known: Endpoint, now: nat) returns (pmtud: PathMtuDiscovery, intent: ProbeIntent)
    ensures fresh(pmtud) && pmtud.Valid() && pmtud.pinned.None? && pmtud.peers.Keys == {known} && pmtud.cfg == DEFAULT_TUNING
    ensures Outstanding(pmtud.peers, intent) && intent.peer == known && intent.size == 1252 && intent.probeId != 0
    ensures var q := pmtud.peers[known];
            q.phase.Raise? && q.lastGood == q.stable == 1220 && q.firstBad == 1501 && q.step == 32 && q.grace.None?
  {
    hide Step, Fresh, Tracks, NeedsHeal, AllNumbered, Ticked, IsMinOver, Accepts, IdleSearcher, AboveFloor, Quiet, Capped, DueIsMoved;
    pmtud := new PathMtuDiscovery();
    var input := TickInput(known, -1.0, false, false);
    var inputs := [input];
    assert AddrSeq(inputs) == [known] && Addrs(inputs) == {known};
    hide AddrSeq, Addrs;
    var sent := pmtud.OnTick(inputs, now);
    ghost var p, l := pmtud.peers, pmtud.lives;
    ghost var e := TickedState(map[], map[], known, input, now, DEFAULT_TUNING, l[known], p[known]);
    OneReport(pmtud.peers, sent, known);
    var later := now + DEFAULT_TUNING.raisePeriod;
    var intents := pmtud.OnTick(inputs, later);
    ghost var q := pmtud.peers[known];
    ghost var f := TickedState(p, l, known, input, later, DEFAULT_TUNING, pmtud.lives[known], q);
    OneReport(pmtud.peers, intents, known);
    FirstProbe(IsPrivate(known), now, p[known], q, e, f);
    pmtud.NoPeerIsWedged(known);
    intent := intents[0];
    assert intent in intents;
  }

  method RaisedPeer(known: Endpoint, now: nat) returns (pmtud: PathMtuDiscovery)
    ensures fresh(pmtud) && pmtud.Valid() && pmtud.pinned.None? && pmtud.peers.Keys == {known} && pmtud.uncounted == {}
    ensures pmtud.peers[known].lastGood == 1252 && pmtud.minPathMtu == 1252
    ensures pmtud.peers[known].grace.None? && !NeedsHeal(IsPrivate(known), pmtud.peers[known])
  {
    hide Step, Tracks, NeedsHeal, AllNumbered, IsMinOver, Accepts, Candidate;
    var intent;
    pmtud, intent := ProbedPeerOf(known, now);
    var later := now + DEFAULT_TUNING.raisePeriod;
    FirstAck(IsPrivate(known), pmtud.peers[known], later, intent.probeId, intent.searchGen);
    var _, _, _ := pmtud.OnAck(known, intent.size, intent.probeId, intent.searchGen, later);
    OnlyPeer(pmtud.minPathMtu, pmtud.peers, known);
  }

  lemma OneReport(peers: Peers, intents: seq<ProbeIntent>, ep: Endpoint)
    requires ReportedOnce(intents) && peers.Keys == {ep} && forall intent :: intent in intents ==> Outstanding(peers, intent)
    ensures |intents| <= 1 && (ep in Targets(intents) ==> |intents| == 1)
  {
    hide ReportedOnce;
    forall i | 0 <= i < |intents|
      ensures intents[i].peer == ep
    {
      assert intents[i] in intents;
    }
    if |intents| > 1 {
      TwoReports(intents);
    }
  }

  lemma TwoReports(intents: seq<ProbeIntent>)
    requires |intents| > 1 && intents[0].peer == intents[1].peer
    ensures !ReportedOnce(intents)
  {
  }

  lemma OnlyPeer(m: nat, peers: Peers, ep: Endpoint)
    requires peers.Keys == {ep} && IsMinOver(m, peers, {})
    ensures m == peers[ep].lastGood
  {
    assert ep in peers && ep !in {};
  }

  /** The cached minimum is not the true one: a lone peer raises it to 1252 by one probe, and a tick that routes a second
      peer leaves it there although the newcomer has proven only 1220. */
  method NewcomerIsNotCounted(known: Endpoint, newcomer: Endpoint, now: nat) returns (pmtud: PathMtuDiscovery)
    requires known != newcomer
    ensures pmtud.Valid() && pmtud.pinned.None? && pmtud.minPathMtu == 1252
    ensures newcomer in pmtud.peers && pmtud.peers[newcomer].lastGood == DEFAULT_MTU
  {
    hide Step, Fresh, Tracks, NeedsHeal, AllNumbered;
    pmtud := RaisedPeer(known, now);
    var inputs := [TickInput(known, -1.0, false, false), TickInput(newcomer, -1.0, false, false)];
    assert AddrSeq(inputs)[0] == known && AddrSeq(inputs)[1] == newcomer;
    assert Quiet(pmtud.peers, inputs);
    hide PathMtuDiscovery.Valid, Quiet, AddrSeq, Ticked;
    var _ := pmtud.OnTick(inputs, now + DEFAULT_TUNING.raisePeriod);
  }

  ghost function Extended(l: Life, e: Event): Life {
    l.(events := l.events + [e])
  }

  lemma ExtendedState(isPrivate: bool, l: Life, e: Event)
    ensures StateOf(isPrivate, Extended(l, e)) == Step(isPrivate, StateOf(isPrivate, l), e)
  {
    RunExtends(isPrivate, Fresh(l.bornAt, l.bornCfg), l.events, e);
  }

  /** The stored state is what the history produces, and its search can go on. */
  ghost predicate Tracks(ep: Endpoint, p: PeerState, l: Life, epsilon: nat) {
    p == StateOf(IsPrivate(ep), l) && Searchable(p, epsilon)
  }

  lemma TracksFresh(ep: Endpoint, now: nat, cfg: Tuning)
    ensures Tracks(ep, Fresh(now, cfg), Life(now, cfg, []), cfg.resolveEpsilon)
  {
  }

  lemma TracksStep(ep: Endpoint, p: PeerState, l: Life, e: Event)
    requires Tracks(ep, p, l, e.cfg.resolveEpsilon)
    ensures Tracks(ep, Step(IsPrivate(ep), p, e), Extended(l, e), e.cfg.resolveEpsilon)
  {
    hide Step, WindowInv, Searchable, Fresh;
    EveryRunKeepsWindow(IsPrivate(ep), l);
    StepKeepsSearchable(IsPrivate(ep), p, e);
    ExtendedState(IsPrivate(ep), l, e);
  }

  /** New tuning aborts every search, so no search outlives the epsilon it was started with. */
  lemma RetunedTracks(ep: Endpoint, p: PeerState, l: Life, epsilon: nat, e: Event)
    requires Tracks(ep, p, l, epsilon) && e.Retune?
    ensures Tracks(ep, Step(IsPrivate(ep), p, e), Extended(l, e), e.cfg.resolveEpsilon)
    ensures !IsSearching(p.phase) ==> Tracks(ep, p, l, e.cfg.resolveEpsilon)
  {
    hide Step, WindowInv, Fresh;
    EveryRunKeepsWindow(IsPrivate(ep), l);
    StepKeepsSearchable(IsPrivate(ep), p, e);
    ExtendedState(IsPrivate(ep), l, e);
  }

  lemma RetuneKeepsLastGood(isPrivate: bool, p: PeerState, now: nat, cfg: Tuning)
    ensures Step(isPrivate, p, Retune(now, cfg)).lastGood == p.lastGood
  {
  }

  /** A probe is in flight that was not in flight before. */
  predicate Busier(p: PeerState, q: PeerState) {
    q.inflight.Some? && q.inflight != p.inflight
  }

  function PlanFor(input: TickInput, now: nat, cfg: Tuning, resendId: u32, tryIssue: bool, issueId: u32): Event {
    Tick(now, cfg, input.rttMs, input.warm && input.largeAlive, resendId, tryIssue, issueId)
  }

  /** The stages of a tick compose to one `Tick` event, and a new probe in flight was either sent again by the
      timeout stage or issued by the last one. */
  lemma StagesMakeTick(isPrivate: bool, p: PeerState, input: TickInput, e: Event, b: PeerState, c: PeerState, q: PeerState)
    requires e.Tick? && e == PlanFor(input, e.now, e.cfg, e.resendId, e.tryIssue, e.issueId)
    requires b == GraceStep(isPrivate, InputStep(Heal(isPrivate, p, e.now, e.cfg), input.rttMs, input.warm && input.largeAlive),
                            e.now, e.cfg)
    requires c == TimeoutStep(isPrivate, b, e.now, e.cfg, e.resendId)
    requires var d := StartStep(c, e.now, e.cfg);
             (e.tryIssue ==> WantsProbe(d)) && q == if e.tryIssue then IssueStep(d, e.now, e.cfg, e.issueId) else d
    ensures TickOf(e, input, e.now, e.cfg)
    ensures q == Step(isPrivate, p, e)
    ensures BeforeTimeout(isPrivate, p, e) == b && BeforeIssue(isPrivate, p, e) == StartStep(c, e.now, e.cfg)
    ensures c.inflight.Some? ==> q == c
    ensures Busier(p, q) ==> Resends(b, e.now, e.cfg) ||
                             (e.tryIssue && IssueSize(StartStep(c, e.now, e.cfg), e.cfg).Some?)
  {
    hide Heal, GraceStep, TimeoutStep, StartStep, IssueStep, WantsProbe, Resends, IssueSize;
    var d := StartStep(c, e.now, e.cfg);
    StartKeepsInflight(c, e.now, e.cfg);
    StartKeepsInflight(d, e.now, e.cfg);
    if e.tryIssue {
      IssueKeepsLastGood(d, e.now, e.cfg, e.issueId);
    }
    InflightOrigin(isPrivate, p, e);
  }

  /** What a tick means for one peer: it takes one step, a new probe of its is reported, its probe ids are among the `n`
      drawn so far, and if slots were to spare it was not passed over. */
  ghost predicate Planned(isPrivate: bool, p: PeerState, q: PeerState, e: Event, input: TickInput, now: nat, cfg: Tuning,
                          reported: bool, n: nat, spare: bool) {
    && TickOf(e, input, now, cfg)
    && q == Step(isPrivate, p, e)
    && (Busier(p, q) ==> reported)
    && (n < U32 ==> NumberedTick(isPrivate, p, e, n))
    && (spare ==> SlotGiven(isPrivate, p, e))
  }

  lemma PeerPlanned(isPrivate: bool, p: PeerState, input: TickInput, e: Event, b: PeerState, c: PeerState, q: PeerState,
                    reported: bool, n: nat, spare: bool)
    requires e.Tick? && e == PlanFor(input, e.now, e.cfg, e.resendId, e.tryIssue, e.issueId)
    requires b == GraceStep(isPrivate, InputStep(Heal(isPrivate, p, e.now, e.cfg), input.rttMs, input.warm && input.largeAlive),
                            e.now, e.cfg)
    requires c == TimeoutStep(isPrivate, b, e.now, e.cfg, e.resendId)
    requires var d := StartStep(c, e.now, e.cfg);
             && (e.tryIssue ==> WantsProbe(d))
             && (spare && WantsProbe(d) ==> e.tryIssue)
             && q == (if e.tryIssue then IssueStep(d, e.now, e.cfg, e.issueId) else d)
             && (e.tryIssue && IssueSize(d, e.cfg).Some? ==> reported && (n < U32 ==> 1 <= e.issueId <= n))
    requires Resends(b, e.now, e.cfg) ==> reported && (n < U32 ==> 1 <= e.resendId <= n)
    ensures Planned(isPrivate, p, q, e, input, e.now, e.cfg, reported, n, spare)
    ensures c.inflight.Some? ==> q == c
  {
    hide Heal, GraceStep, TimeoutStep, StartStep, IssueStep, WantsProbe, Resends, IssueSize, Step, Busier, BeforeTimeout, BeforeIssue,
         InputStep;
    StagesMakeTick(isPrivate, p, input, e, b, c, q);
  }

  /** The first two stages of a tick took `before` to `after`. */
  ghost predicate SettledPeers(before: Peers, after: Peers, inputs: seq<TickInput>, now: nat, cfg: Tuning) {
    && after.Keys == Addrs(inputs)
    && forall ep :: ep in after ==>
         after[ep] == GraceStep(IsPrivate(ep), Admitted(before, inputs, ep, now, cfg), now, cfg)
  }

  /** The last two stages took `before` to `after`: searches start and new probes go into the free slots. */
  ghost predicate Probed(before: Peers, after: Peers, now: nat, cfg: Tuning, slots: int, ids: map<Endpoint, u32>,
                         tried: set<Endpoint>, intents: seq<ProbeIntent>) {
    && ids.Keys == after.Keys == before.Keys
    && |intents| <= Max(slots, 0)
    && (forall ep :: ep in after ==> ProbedPeer(before[ep], after[ep], now, cfg, ids[ep], ep in tried, ep in Targets(intents)))
    && ReportedOnce(intents)
    && (forall intent :: intent in intents ==> Outstanding(after, intent) && intent.peer in tried)
    && (|intents| < slots ==> forall ep :: ep in after && WantsProbe(StartStep(before[ep], now, cfg)) ==> ep in tried)
  }

  predicate ProbedPeer(c: PeerState, q: PeerState, now: nat, cfg: Tuning, id: u32, tried: bool, reported: bool) {
    var d := StartStep(c, now, cfg);
    if tried then
      WantsProbe(d) && q == IssueStep(d, now, cfg, id) && (IssueSize(d, cfg).Some? ==> reported)
    else
      q == d
  }

  /** The tick as all peers experienced it. */
  ghost predicate PlanOk(before: Peers, after: Peers, plan: map<Endpoint, Event>, inputs: seq<TickInput>, now: nat, cfg: Tuning,
                         intents: seq<ProbeIntent>, n: nat) {
    && plan.Keys == after.Keys == Addrs(inputs)
    && (forall ep :: ep in after ==>
          Planned(IsPrivate(ep), Before(before, ep, now, cfg), after[ep], plan[ep], LastInput(inputs, ep), now, cfg,
                  ep in Targets(intents), n, |intents| < cfg.maxConcurrent))
    && (forall intent :: intent in intents ==> Outstanding(after, intent))
    && ReportedOnce(intents) && Capped(before, cfg, intents)
  }

  /** Only probes that are sent again can exceed the number of slots. */
  predicate Capped(before: Peers, cfg: Tuning, intents: seq<ProbeIntent>) {
    |intents| > cfg.maxConcurrent ==> forall ep :: ep in Targets(intents) ==> ep in before && before[ep].inflight.Some?
  }

  lemma ResendWasInflight(isPrivate: bool, p: PeerState, rttMs: real, largeAlive: bool, now: nat, cfg: Tuning)
    ensures Resends(GraceStep(isPrivate, InputStep(Heal(isPrivate, p, now, cfg), rttMs, largeAlive), now, cfg), now, cfg) ==>
              p.inflight.Some?
  {
    hide ConfirmedFail;
    var a := InputStep(Heal(isPrivate, p, now, cfg), rttMs, largeAlive);
    if GraceDue(a, now) {
      ConfirmedFailInflight(isPrivate, a.(grace := None), a.grace.value.size, now, cfg);
    }
  }

  lemma CapHolds(before: Peers, graced: Peers, timed: Peers, inputs: seq<TickInput>, now: nat, cfg: Tuning,
                 resent: seq<ProbeIntent>, resendIds: map<Endpoint, u32>, sent: seq<ProbeIntent>)
    requires SettledPeers(before, graced, inputs, now, cfg)
    requires Expired(graced, timed, {}, now, cfg, resendIds, resent)
    requires |sent| <= Max(cfg.maxConcurrent - |resent|, 0)
    ensures Capped(before, cfg, resent + sent)
  {
    hide GraceStep, Resends, Heal, InputStep, LastInput, TimeoutStep, Outstanding, Targets, Addrs;
    if |resent + sent| > cfg.maxConcurrent {
      assert resent + sent == resent;
      forall ep | ep in Targets(resent)
        ensures ep in before && before[ep].inflight.Some?
      {
        var input := LastInput(inputs, ep);
        ResendWasInflight(IsPrivate(ep), Before(before, ep, now, cfg), input.rttMs, input.warm && input.largeAlive, now, cfg);
      }
    }
  }

  lemma MakePlan(before: Peers, graced: Peers, timed: Peers, after: Peers, inputs: seq<TickInput>, now: nat, cfg: Tuning,
                 resent: seq<ProbeIntent>, resendIds: map<Endpoint, u32>, sent: seq<ProbeIntent>, tried: set<Endpoint>,
                 issueIds: map<Endpoint, u32>, lo: nat, mid: nat, hi: nat) returns (plan: map<Endpoint, Event>)
    requires SettledPeers(before, graced, inputs, now, cfg)
    requires Expired(graced, timed, {}, now, cfg, resendIds, resent)
    requires Probed(timed, after, now, cfg, cfg.maxConcurrent - |resent|, issueIds, tried, sent)
    requires DrawnFor(resent, resendIds, lo, mid) && DrawnFor(sent, issueIds, mid, hi) && lo <= mid <= hi
    ensures PlanOk(before, after, plan, inputs, now, cfg, resent + sent, hi)
  {
    hide GraceStep, TimeoutStep, StartStep, WantsProbe, Resends, Before, LastInput, Admitted, Planned, PlanFor, Outstanding, Targets,
         Addrs, ProbedPeer, DrawnFor, Capped;
    plan := map ep | ep in after :: PlanFor(LastInput(inputs, ep), now, cfg, resendIds[ep], ep in tried, issueIds[ep]);
    forall ep | ep in after
      ensures Planned(IsPrivate(ep), Before(before, ep, now, cfg), after[ep], plan[ep], LastInput(inputs, ep), now, cfg,
                      ep in Targets(resent + sent), hi, |resent + sent| < cfg.maxConcurrent)
      ensures timed[ep].inflight.Some? ==> after[ep] == timed[ep]
    {
      TargetsUnion(resent, sent);
      DrawnFrom(resent, resendIds, lo, mid, hi, ep);
      DrawnFrom(sent, issueIds, mid, hi, hi, ep);
      PlanPeer(before, ep, inputs, now, cfg, graced[ep], timed[ep], after[ep], resendIds[ep], ep in tried, issueIds[ep],
               ep in Targets(resent), ep in Targets(sent), hi, |resent + sent| < cfg.maxConcurrent);
    }
    StillOutstanding(timed, after, resent);
    OnceTogether(timed, after, now, cfg, issueIds, resent, sent, tried);
    CapHolds(before, graced, timed, inputs, now, cfg, resent, resendIds, sent);
  }

  /** A probe that was sent again keeps its peer from wanting another one. */
  lemma OnceTogether(timed: Peers, after: Peers, now: nat, cfg: Tuning, ids: map<Endpoint, u32>, resent: seq<ProbeIntent>,
                     sent: seq<ProbeIntent>, tried: set<Endpoint>)
    requires ReportedOnce(resent) && forall intent :: intent in resent ==> Outstanding(timed, intent)
    requires ReportedOnce(sent) && forall intent :: intent in sent ==> intent.peer in tried
    requires ids.Keys == after.Keys == timed.Keys
    requires forall ep :: ep in after ==> ProbedPeer(timed[ep], after[ep], now, cfg, ids[ep], ep in tried, ep in Targets(sent))
    ensures ReportedOnce(resent + sent)
  {
    hide StartStep, WantsProbe, IssueStep, IssueSize, Targets;
    forall i, j | 0 <= i < |resent| && 0 <= j < |sent|
      ensures resent[i].peer != sent[j].peer
    {
      assert resent[i] in resent && sent[j] in sent;
      StartKeepsInflight(timed[resent[i].peer], now, cfg);
    }
  }

  lemma DrawnFrom(intents: seq<ProbeIntent>, ids: map<Endpoint, u32>, lo: nat, hi: nat, n: nat, ep: Endpoint)
    requires DrawnFor(intents, ids, lo, hi) && hi <= n && ep in ids
    ensures ep in Targets(intents) && n < U32 ==> 1 <= ids[ep] <= n
  {
  }

  lemma PlanPeer(before: Peers, ep: Endpoint, inputs: seq<TickInput>, now: nat, cfg: Tuning, b: PeerState, c: PeerState, q: PeerState,
                 resendId: u32, tried: bool, issueId: u32, resent: bool, sent: bool, n: nat, spare: bool)
    requires ep in Addrs(inputs) && b == GraceStep(IsPrivate(ep), Admitted(before, inputs, ep, now, cfg), now, cfg)
    requires c == TimeoutStep(IsPrivate(ep), b, now, cfg, resendId) && (resent <==> Resends(b, now, cfg))
    requires ProbedPeer(c, q, now, cfg, issueId, tried, sent)
    requires spare && WantsProbe(StartStep(c, now, cfg)) ==> tried
    requires n < U32 ==> (resent ==> 1 <= resendId <= n) && (sent ==> 1 <= issueId <= n)
    ensures Planned(IsPrivate(ep), Before(before, ep, now, cfg), q,
                    PlanFor(LastInput(inputs, ep), now, cfg, resendId, tried, issueId), LastInput(inputs, ep), now, cfg,
                    resent || sent, n, spare)
    ensures c.inflight.Some? ==> q == c
  {
    hide InputStep, GraceStep, TimeoutStep, StartStep, IssueStep, WantsProbe, Resends, IssueSize, Before, LastInput, Heal, Planned,
         PlanFor, Addrs;
    PlanFields(LastInput(inputs, ep), now, cfg, resendId, tried, issueId);
    PeerPlanned(IsPrivate(ep), Before(before, ep, now, cfg), LastInput(inputs, ep),
                PlanFor(LastInput(inputs, ep), now, cfg, resendId, tried, issueId), b, c, q, resent || sent, n, spare);
  }

  lemma PlanFields(input: TickInput, now: nat, cfg: Tuning, resendId: u32, tryIssue: bool, issueId: u32)
    ensures var e := PlanFor(input, now, cfg, resendId, tryIssue, issueId);
            e.Tick? && e.now == now && e.cfg == cfg && e.resendId == resendId && e.tryIssue == tryIssue && e.issueId == issueId
  {
  }

  lemma StartKeepsInflight(p: PeerState, now: nat, cfg: Tuning)
    ensures StartStep(p, now, cfg).inflight == p.inflight
    ensures p.inflight.Some? ==> StartStep(p, now, cfg) == p && !WantsProbe(p)
    ensures WantsProbe(p) ==> Idle(p)
  {
  }

  lemma InflightOrigin(isPrivate: bool, p: PeerState, e: Event)
    requires e.Tick?
    ensures var b := BeforeTimeout(isPrivate, p, e);
            var c := BeforeStart(isPrivate, p, e);
            Busier(p, c) ==> Resends(b, e.now, e.cfg)
  {
    hide ConfirmedFail, TimeoutFor, Resends;
    var a, b := BeforeGrace(isPrivate, p, e), BeforeTimeout(isPrivate, p, e);
    if GraceDue(a, e.now) {
      ConfirmedFailInflight(isPrivate, a.(grace := None), a.grace.value.size, e.now, e.cfg);
    }
    if TimeoutDue(b, e.now) {
      ConfirmedFailInflight(isPrivate, b.(inflight := None), b.inflight.value.size, e.now, e.cfg);
    }
  }

  lemma ConfirmedFailInflight(isPrivate: bool, p: PeerState, size: nat, now: nat, cfg: Tuning)
    ensures var q := ConfirmedFail(isPrivate, p, size, now, cfg); q.inflight.None? || q.inflight == p.inflight
  {
    hide WindowClosed, SoftDownLastGood;
  }

  lemma TargetsUnion(xs: seq<ProbeIntent>, ys: seq<ProbeIntent>)
    ensures Targets(xs + ys) == Targets(xs) + Targets(ys)
  {
    assert forall x :: x in xs + ys <==> x in xs || x in ys;
    forall ep | ep in Targets(xs) + Targets(ys) ensures ep in Targets(xs + ys) {
      var x :| (x in xs || x in ys) && x.peer == ep;
      assert x in xs + ys;
    }
  }

  lemma StillOutstanding(before: Peers, after: Peers, intents: seq<ProbeIntent>)
    requires before.Keys == after.Keys
    requires forall ep :: ep in before && before[ep].inflight.Some? ==> after[ep] == before[ep]
    requires forall intent :: intent in intents ==> Outstanding(before, intent)
    ensures forall intent :: intent in intents ==> Outstanding(after, intent)
  {
  }

  /** The history of a peer before the tick: its own, or a new one. */
  ghost function LifeOf(peers: Peers, lives: map<Endpoint, Life>, ep: Endpoint, now: nat, cfg: Tuning): Life
    requires ep in peers ==> ep in lives
  {
    if ep in peers then lives[ep] else Life(now, cfg, [])
  }

  predicate DueIsMoved(p: PeerState, q: PeerState, now: nat, spare: bool) {
    now >= DueAt(p) && (spare || !IdleSearcher(p)) ==> (Moved(p, q) <==> !Wedged(p))
  }

  lemma PlannedTracks(peers: Peers, lives: map<Endpoint, Life>, ep: Endpoint, input: TickInput, now: nat, cfg: Tuning, e: Event,
                      q: PeerState, reported: bool, n: nat, spare: bool)
    requires ep in peers ==> ep in lives && Tracks(ep, peers[ep], lives[ep], cfg.resolveEpsilon)
    requires Planned(IsPrivate(ep), Before(peers, ep, now, cfg), q, e, input, now, cfg, reported, n, spare)
    ensures var l := LifeOf(peers, lives, ep, now, cfg);
            Tracks(ep, q, Extended(l, e), cfg.resolveEpsilon) && Ticked(peers, lives, ep, input, now, cfg, Extended(l, e))
    ensures AboveFloor(IsPrivate(ep), q)
    ensures Busier(Before(peers, ep, now, cfg), q) ==> reported
    ensures ep in peers && ClampedTuning(cfg) ==> DueIsMoved(peers[ep], q, now, spare)
    ensures ClampedTuning(cfg) && spare ==> !IdleSearcher(q)
    ensures ep !in peers ==> q.lastGood == DEFAULT_MTU
  {
    hide Step, WindowInv, Fresh, Searchable, Run, AboveFloor, ClampedTuning, NumberedTick, SlotGiven, Busier, Moved, Wedged, DueAt,
         IdleSearcher;
    var l, p := LifeOf(peers, lives, ep, now, cfg), Before(peers, ep, now, cfg);
    TracksFresh(ep, now, cfg);
    TracksStep(ep, p, l, e);
    EveryRunKeepsWindow(IsPrivate(ep), l);
    StepKeepsWindow(IsPrivate(ep), p, e);
    if ClampedTuning(cfg) && spare {
      ClampedResolution(cfg);
      SlotLeavesNoSearcher(IsPrivate(ep), p, e);
    }
    if ep !in peers {
      NewcomerAtDefault(IsPrivate(ep), e);
    } else if ClampedTuning(cfg) && now >= DueAt(p) && (spare || !IdleSearcher(p)) {
      DueTickMovesUnlessWedged(IsPrivate(ep), p, e);
    }
  }

  lemma PlanOutcome(before: Peers, after: Peers, lives: map<Endpoint, Life>, plan: map<Endpoint, Event>, inputs: seq<TickInput>,
                    now: nat, cfg: Tuning, intents: seq<ProbeIntent>, n: nat, m: nat)
    requires lives.Keys == before.Keys && n <= m && (n < U32 ==> AllNumbered(lives, n))
    requires forall ep :: ep in before ==> Tracks(ep, before[ep], lives[ep], cfg.resolveEpsilon)
    requires PlanOk(before, after, plan, inputs, now, cfg, intents, m)
    ensures forall ep :: ep in after ==>
              var l := Extended(LifeOf(before, lives, ep, now, cfg), plan[ep]);
              Tracks(ep, after[ep], l, cfg.resolveEpsilon) && Ticked(before, lives, ep, LastInput(inputs, ep), now, cfg, l)
    ensures forall ep :: ep in after ==> AboveFloor(IsPrivate(ep), after[ep])
    ensures forall ep :: ep in after && Busier(Before(before, ep, now, cfg), after[ep]) ==> ep in Targets(intents)
    ensures ClampedTuning(cfg) ==>
              forall ep :: ep in after && ep in before ==> DueIsMoved(before[ep], after[ep], now, |intents| < cfg.maxConcurrent)
    ensures ClampedTuning(cfg) && |intents| < cfg.maxConcurrent ==> forall ep :: ep in after ==> !IdleSearcher(after[ep])
    ensures forall ep :: ep in after && ep !in before ==> after[ep].lastGood == DEFAULT_MTU
    ensures m < U32 ==> AllNumbered(map ep | ep in after :: Extended(LifeOf(before, lives, ep, now, cfg), plan[ep]), m)
  {
    hide Fresh, Step, Tracks, Outstanding, Targets, Before, LastInput, Busier, AboveFloor, Ticked, Extended, TickOf, AllNumbered, Planned,
         DueIsMoved, ClampedTuning, Addrs, LifeOf, NumberedLife, Capped, ReportedOnce, IdleSearcher;
    forall ep | ep in after
      ensures var l := Extended(LifeOf(before, lives, ep, now, cfg), plan[ep]);
              Tracks(ep, after[ep], l, cfg.resolveEpsilon) && Ticked(before, lives, ep, LastInput(inputs, ep), now, cfg, l)
      ensures AboveFloor(IsPrivate(ep), after[ep])
      ensures Busier(Before(before, ep, now, cfg), after[ep]) ==> ep in Targets(intents)
      ensures ep in before && ClampedTuning(cfg) ==> DueIsMoved(before[ep], after[ep], now, |intents| < cfg.maxConcurrent)
      ensures ClampedTuning(cfg) && |intents| < cfg.maxConcurrent ==> !IdleSearcher(after[ep])
      ensures ep !in before ==> after[ep].lastGood == DEFAULT_MTU
      ensures m < U32 ==> NumberedLife(IsPrivate(ep), Extended(LifeOf(before, lives, ep, now, cfg), plan[ep]), m)
    {
      PlannedTracks(before, lives, ep, LastInput(inputs, ep), now, cfg, plan[ep], after[ep],
                    ep in Targets(intents), m, |intents| < cfg.maxConcurrent);
      if m < U32 {
        PlannedIsNumbered(before, lives, ep, LastInput(inputs, ep), now, cfg, plan[ep], after[ep],
                          ep in Targets(intents), n, m, |intents| < cfg.maxConcurrent);
      }
    }
    if m < U32 {
      NumberedAll(map ep | ep in after :: Extended(LifeOf(before, lives, ep, now, cfg), plan[ep]), m);
    }
  }

  lemma PlannedIsNumbered(peers: Peers, lives: map<Endpoint, Life>, ep: Endpoint, input: TickInput, now: nat, cfg: Tuning, e: Event,
                          q: PeerState, reported: bool, n: nat, m: nat, spare: bool)
    requires ep in peers ==> ep in lives && Tracks(ep, peers[ep], lives[ep], cfg.resolveEpsilon)
    requires Planned(IsPrivate(ep), Before(peers, ep, now, cfg), q, e, input, now, cfg, reported, m, spare)
    requires n <= m < U32 && lives.Keys == peers.Keys && AllNumbered(lives, n)
    ensures NumberedLife(IsPrivate(ep), Extended(LifeOf(peers, lives, ep, now, cfg), e), m)
  {
    hide Step, Searchable, NumberedTick, NumberedLife, SlotGiven, Busier, TickOf, Fresh;
    var l := LifeOf(peers, lives, ep, now, cfg);
    FreshIsNumbered(IsPrivate(ep), l, n);
    TracksFresh(ep, now, cfg);
    NumberedMore(IsPrivate(ep), l, e, n, m);
  }

  lemma NumberedAll(lives: map<Endpoint, Life>, n: nat)
    requires forall ep :: ep in lives ==> NumberedLife(IsPrivate(ep), lives[ep], n)
    ensures AllNumbered(lives, n)
  {
  }

  lemma PinOutcome(isPrivate: bool, p: PeerState, e: Event)
    requires e.Pin? || e.Unpin?
    ensures !IsSearching(Step(isPrivate, p, e).phase)
    ensures e.Unpin? ==> Step(isPrivate, p, e).lastGood == DEFAULT_MTU
  {
  }

  lemma SeedPhase(isPrivate: bool, p: PeerState, now: nat, cfg: Tuning, mtu: nat)
    ensures Step(isPrivate, p, Seed(now, cfg, mtu)).phase.Plateau?
  {
  }

  lemma HardFailKeepsLastGood(isPrivate: bool, p: PeerState, id: u32, now: nat, cfg: Tuning)
    ensures !(HardFailHits(p, id) && (p.phase.Revalidate? || p.phase.Recheck?)) ==>
              Step(isPrivate, p, HardFail(now, cfg, id)).lastGood == p.lastGood
  {
    hide ConfirmedFail, SoftDown;
    if HardFailHits(p, id) {
      ConfirmedFailKeepsLastGood(isPrivate, p, p.inflight.value.size, now, cfg);
    }
  }

  lemma StartKeepsLastGood(p: PeerState, now: nat, cfg: Tuning)
    ensures StartStep(p, now, cfg).lastGood == p.lastGood
  {
  }

  lemma IssuedIsOutstanding(p: PeerState, now: nat, cfg: Tuning, id: u32)
    requires IssueSize(p, cfg).Some?
    ensures var q := IssueStep(p, now, cfg, id); q.inflight.Some? && q.inflight.value.probeId == id
  {
    hide TimeoutFor;
  }

  /** What the issue loop has done so far: which peers it tried, with which ids, and what it reported. */
  ghost predicate Issued(before: Peers, after: Peers, now: nat, cfg: Tuning, ids: map<Endpoint, u32>, tried: set<Endpoint>,
                         intents: seq<ProbeIntent>) {
    && ids.Keys == after.Keys == before.Keys
    && tried <= before.Keys
    && (forall ep :: ep in after ==>
          after[ep] == if ep in tried then IssueStep(before[ep], now, cfg, ids[ep]) else before[ep])
    && ReportedOnce(intents)
    && (forall intent :: intent in intents ==> Outstanding(after, intent) && intent.peer in tried)
    && (forall ep :: ep in tried && IssueSize(before[ep], cfg).Some? ==> ep in Targets(intents))
  }

  /** Every reported probe has an id that was drawn in between. */
  ghost predicate DrawnFor(intents: seq<ProbeIntent>, ids: map<Endpoint, u32>, lo: nat, hi: nat) {
    forall ep :: ep in Targets(intents) && ep in ids ==> DrawnBetween(ids[ep], lo, hi)
  }

  lemma NothingDrawn(ids: map<Endpoint, u32>, n: nat)
    ensures DrawnFor([], ids, n, n)
  {
  }

  /** What the timeout loop has done so far: which peers are left, which ids were offered, and what was reported. */
  ghost predicate Expired(before: Peers, after: Peers, todo: set<Endpoint>, now: nat, cfg: Tuning, ids: map<Endpoint, u32>,
                          intents: seq<ProbeIntent>) {
    && ids.Keys == after.Keys == before.Keys
    && (forall ep :: ep in after ==>
          after[ep] == if ep in todo then before[ep] else TimeoutStep(IsPrivate(ep), before[ep], now, cfg, ids[ep]))
    && ReportedOnce(intents)
    && (forall intent :: intent in intents ==> Outstanding(after, intent) && intent.peer !in todo)
    && (forall ep :: ep in Targets(intents) <==> ep in before && ep !in todo && Resends(before[ep], now, cfg))
  }

  lemma NothingExpired(peers: Peers, todo: set<Endpoint>, now: nat, cfg: Tuning, ids: map<Endpoint, u32>)
    requires ids.Keys == peers.Keys && forall ep :: ep in ids ==> ids[ep] == 0
    requires forall ep :: ep in peers && TimeoutDue(peers[ep], now) ==> ep in todo
    ensures Expired(peers, peers, todo, now, cfg, ids, [])
  {
    hide TimeoutStep, Resends, TimeoutDue;
    forall ep | ep in peers && ep !in todo
      ensures TimeoutStep(IsPrivate(ep), peers[ep], now, cfg, 0) == peers[ep] && !Resends(peers[ep], now, cfg)
    {
      NothingDue(IsPrivate(ep), peers[ep], now, cfg);
    }
  }

  lemma ExpiredNext(before: Peers, mid: Peers, after: Peers, todo: set<Endpoint>, now: nat, cfg: Tuning, ids: map<Endpoint, u32>,
                    intents: seq<ProbeIntent>, ep: Endpoint, id: u32, intent: Option<ProbeIntent>)
    requires Expired(before, mid, todo, now, cfg, ids, intents) && ep in todo && ep in mid
    requires after == mid[ep := TimeoutStep(IsPrivate(ep), mid[ep], now, cfg, id)]
    requires intent.Some? <==> Resends(mid[ep], now, cfg)
    requires intent.Some? ==> intent.value.peer == ep && Outstanding(after, intent.value)
    ensures Expired(before, after, todo - {ep}, now, cfg, ids[ep := id], if intent.Some? then intents + [intent.value] else intents)
    ensures ep !in Targets(intents)
  {
    hide TimeoutStep, Resends, Targets, Outstanding;
    OthersOutstanding(mid, ep, after[ep], intents);
    if intent.Some? {
      TargetsAppend(intents, intent.value);
    }
  }

  lemma OthersOutstanding(peers: Peers, ep: Endpoint, q: PeerState, intents: seq<ProbeIntent>)
    ensures forall intent :: intent in intents && intent.peer != ep && Outstanding(peers, intent) ==>
              Outstanding(peers[ep := q], intent)
  {
  }

  lemma ResentNext(intents: seq<ProbeIntent>, ids: map<Endpoint, u32>, ep: Endpoint, id: u32, intent: Option<ProbeIntent>,
                   lo: nat, hi: nat, hi': nat)
    requires DrawnFor(intents, ids, lo, hi) && lo <= hi <= hi' && ep !in Targets(intents)
    requires intent.Some? ==> intent.value.peer == ep && DrawnBetween(id, hi, hi')
    ensures DrawnFor(if intent.Some? then intents + [intent.value] else intents, ids[ep := id], lo, hi')
  {
    hide Targets;
    if intent.Some? {
      TargetsAppend(intents, intent.value);
    }
  }

  lemma DrawnNext(before: Peers, mid: Peers, now: nat, cfg: Tuning, ids: map<Endpoint, u32>, tried: set<Endpoint>,
                  intents: seq<ProbeIntent>, ep: Endpoint, id: u32, intent: Option<ProbeIntent>, lo: nat, hi: nat, hi': nat)
    requires Issued(before, mid, now, cfg, ids, tried, intents) && ep in mid && DrawnFor(intents, ids, lo, hi)
    requires lo <= hi <= hi' && (intent.Some? ==> intent.value.peer == ep && DrawnBetween(id, hi, hi'))
    requires intent.Some? <==> IssueSize(mid[ep], cfg).Some?
    ensures DrawnFor(if intent.Some? then intents + [intent.value] else intents,
                     if ep in tried then ids else ids[ep := id], lo, hi')
  {
    hide IssueStep, IssueSize, Outstanding;
    if intent.Some? {
      TargetsAppend(intents, intent.value);
      if ep in tried {
        IssueTwice(before[ep], now, cfg, ids[ep], id);
      }
    }
  }

  lemma NothingIssued(peers: Peers, now: nat, cfg: Tuning, ids: map<Endpoint, u32>)
    requires ids.Keys == peers.Keys
    ensures Issued(peers, peers, now, cfg, ids, {}, [])
  {
  }

  lemma IssuedNext(before: Peers, mid: Peers, now: nat, cfg: Tuning, ids: map<Endpoint, u32>, tried: set<Endpoint>,
                   intents: seq<ProbeIntent>, ep: Endpoint, id: u32, intent: Option<ProbeIntent>)
    requires Issued(before, mid, now, cfg, ids, tried, intents) && ep in mid
    requires intent.Some? <==> IssueSize(mid[ep], cfg).Some?
    requires intent.Some? ==> intent.value.peer == ep &&
                              Outstanding(mid[ep := IssueStep(mid[ep], now, cfg, id)], intent.value)
    ensures Issued(before, mid[ep := IssueStep(mid[ep], now, cfg, id)], now, cfg,
                   if ep in tried then ids else ids[ep := id], tried + {ep},
                   if intent.Some? then intents + [intent.value] else intents)
  {
    hide IssueStep, IssueSize;
    if ep in tried {
      IssueTwice(before[ep], now, cfg, ids[ep], id);
      assert mid[ep := IssueStep(mid[ep], now, cfg, id)] == mid;
    }
    if intent.Some? {
      TargetsAppend(intents, intent.value);
    }
  }

  lemma NothingDue(isPrivate: bool, p: PeerState, now: nat, cfg: Tuning)
    requires !TimeoutDue(p, now)
    ensures TimeoutStep(isPrivate, p, now, cfg, 0) == p && !Resends(p, now, cfg)
  {
  }

  lemma ResendIsOutstanding(isPrivate: bool, p: PeerState, now: nat, cfg: Tuning, id: u32)
    requires Resends(p, now, cfg)
    ensures var q := TimeoutStep(isPrivate, p, now, cfg, id); q.inflight.Some? && q.inflight.value.probeId == id
  {
  }

  /** The earliest of the times that `next_deadline` looks at for one peer. */
  function WakeAt(p: PeerState, now: nat): nat {
    var t := if IsSearching(p.phase) then now else p.nextRaiseAt;
    var u := if p.grace.Some? then Min(t, p.grace.value.deadline) else t;
    if p.inflight.Some? then Min(u, p.inflight.value.deadline) else u
  }
}
