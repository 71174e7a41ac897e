/** Path-MTU discovery for one peer (src/pmtud.rs).

    The source keeps one `PeerState` per endpoint and rewrites it in place inside a hash map.
    Here a `PeerState` is a value, every helper of the source that takes `&mut PeerState` is a
    function from the old state to the new one, and `Step` is one externally visible event:
    a tick, an acknowledgement, a hard send failure, a retune, a pin, an unpin, a seed or a
    wake-up hint.  Times and durations are in milliseconds. */
module PmtudPeer {
  import opened Wrappers

  const DEFAULT_MTU := 1220
  const MIN_MTU := 576
  const MAX_MTU := 1500
  const FIRST_BAD_SENTINEL := MAX_MTU + 1
  const ANOMALY_REARM_CAP := 5_000
  const ADAPTIVE_TIMEOUT_CAP := 5_000
  const REVALIDATE_HINT_COOLDOWN := 5_000
  const EARLY_WAKE_COOLDOWN := 10_000

  type u8 = n: int | 0 <= n < 0x100
  type u32 = n: int | 0 <= n < 0x1_0000_0000

  datatype Phase = Plateau | Raise | Binary | Revalidate | Recheck | DownSearch | Frozen

  datatype Inflight = Inflight(probeId: u32, size: nat, deadline: nat, confirmsLeft: u8)

  datatype Grace = Grace(probeId: u32, size: nat, searchGen: u32, deadline: nat)

  datatype PeerState = PeerState(
    lastGood: nat,
    firstBad: nat,
    stable: nat,
    phase: Phase,
    step: nat,
    inflight: Option<Inflight>,
    searchGen: u32,
    probesUsed: u32,
    lowerCampaigns: u8,
    nextRaiseAt: nat,
    downFromStable: Option<nat>,
    lastHintAt: Option<nat>,
    lastWakeAt: Option<nat>,
    grace: Option<Grace>,
    downsearchGotAck: bool,
    rttMs: real,
    largeAlive: bool,
    everAcked: bool)

  /** The knobs of `PmtudTuning` together with the raise period. */
  datatype Tuning = Tuning(
    probeTimeout: nat,
    confirmCount: u8,
    resolveEpsilon: nat,
    raiseStep: nat,
    maxProbes: u32,
    maxConcurrent: nat,
    downgradeBatches: u8,
    raisePeriod: nat)

  const DEFAULT_TUNING := Tuning(500, 3, 4, 32, 64, 4, 4, 60_000)

  predicate IsSearching(ph: Phase) {
    ph.Raise? || ph.Binary? || ph.Revalidate? || ph.Recheck? || ph.DownSearch?
  }

  function NextGen(g: u32): u32 {
    (g + 1) % 0x1_0000_0000
  }

  function ClampSize(sz: nat): nat {
    Clamp(sz, MIN_MTU, MAX_MTU)
  }

  function Fresh(now: nat, cfg: Tuning): PeerState {
    PeerState(DEFAULT_MTU, FIRST_BAD_SENTINEL, DEFAULT_MTU, Plateau, cfg.raiseStep, None, 1, 0, 0,
              now + cfg.raisePeriod, None, None, None, None, false, -1.0, false, false)
  }

  predicate WindowClosed(p: PeerState, epsilon: nat) {
    Max(p.firstBad - p.lastGood, 0) <= epsilon
  }

  function AbortInflight(p: PeerState): PeerState {
    p.(inflight := None, grace := None, searchGen := NextGen(p.searchGen))
  }

  /** Rounding is half away from zero, as `f64::round`, on the exact product. */
  function TimeoutFor(p: PeerState, cfg: Tuning): nat {
    if p.rttMs < 0.0 then
      cfg.probeTimeout
    else
      Min(Max((4.0 * p.rttMs + 0.5).Floor, cfg.probeTimeout), ADAPTIVE_TIMEOUT_CAP)
  }

  function RaiseTarget(p: PeerState): Option<nat> {
    if p.lastGood >= MAX_MTU then
      None
    else
      var hi := Min(Max(p.firstBad - 1, 0), MAX_MTU);
      if hi <= p.lastGood then
        None
      else
        var t := Min(p.lastGood + p.step, hi);
        if t > p.lastGood then Some(t) else None
  }

  function BinaryTarget(p: PeerState): Option<nat> {
    if p.firstBad <= p.lastGood + 1 then
      None
    else
      var mid := p.lastGood + (p.firstBad - p.lastGood) / 2;
      if p.lastGood < mid < p.firstBad then Some(ClampSize(mid)) else None
  }

  function EnterFrozen(p: PeerState, now: nat, cfg: Tuning): PeerState {
    p.(inflight := None, grace := None, phase := Frozen, nextRaiseAt := now + cfg.raisePeriod, probesUsed := 0)
  }

  /** Ends a search.  A pending down-search is accounted for: `stable` follows `lastGood` down only
      when enough consecutive down-searches ended lower than they started. */
  function EnterPlateau(p: PeerState, now: nat, cfg: Tuning): PeerState {
    var q := p.(inflight := None, grace := None, phase := Plateau, nextRaiseAt := now + cfg.raisePeriod,
                probesUsed := 0, step := cfg.raiseStep, downFromStable := None);
    match p.downFromStable
    case None => q
    case Some(from) =>
      if p.lastGood < from then
        var campaigns := Min(p.lowerCampaigns + 1, 0xFF);
        if campaigns >= cfg.downgradeBatches then
          q.(stable := p.lastGood, lowerCampaigns := 0)
        else
          q.(lowerCampaigns := campaigns)
      else
        q.(lowerCampaigns := 0)
  }

  function FinishDownSearch(p: PeerState, now: nat, cfg: Tuning): PeerState {
    EnterPlateau(if p.downsearchGotAck then p else p.(firstBad := FIRST_BAD_SENTINEL), now, cfg)
  }

  function MaybeBudgetFreeze(p: PeerState, now: nat, cfg: Tuning): PeerState {
    if !p.phase.Recheck? && p.probesUsed >= cfg.maxProbes then EnterFrozen(p, now, cfg) else p
  }

  function BeginProbe(p: PeerState, id: u32, size: nat, deadline: nat, confirms: u8): PeerState {
    p.(grace := None,
       inflight := Some(Inflight(id, ClampSize(size), deadline, confirms)),
       probesUsed := Min(p.probesUsed + 1, 0xFFFF_FFFF))
  }

  function SoftDownLastGood(p: PeerState): nat {
    if p.lastGood < p.stable then Max(MIN_MTU, p.lastGood / 2) else Max(MIN_MTU, p.stable / 2)
  }

  /** `isPrivate` says that the endpoint is an RFC 1918 address. */
  function SoftDown(isPrivate: bool, p: PeerState, now: nat, cfg: Tuning): PeerState {
    var halved := SoftDownLastGood(p);
    var lg := if isPrivate && !p.everAcked then Max(halved, DEFAULT_MTU) else halved;
    var q := p.(firstBad := Max(p.stable, lg + 1), lastGood := lg, downFromStable := Some(p.stable),
                downsearchGotAck := false, phase := DownSearch, probesUsed := 0, step := cfg.raiseStep,
                searchGen := NextGen(p.searchGen), inflight := None, grace := None);
    if WindowClosed(q, cfg.resolveEpsilon) then FinishDownSearch(q, now, cfg) else q
  }

  predicate NeedsHeal(isPrivate: bool, p: PeerState) {
    isPrivate && !p.everAcked && p.lastGood < DEFAULT_MTU
  }

  function Heal(isPrivate: bool, p: PeerState, now: nat, cfg: Tuning): PeerState {
    if NeedsHeal(isPrivate, p) then
      p.(lastGood := DEFAULT_MTU, stable := DEFAULT_MTU, firstBad := FIRST_BAD_SENTINEL, inflight := None,
         grace := None, searchGen := NextGen(p.searchGen), phase := Plateau, nextRaiseAt := now,
         probesUsed := 0, step := cfg.raiseStep, downFromStable := None, downsearchGotAck := false,
         lowerCampaigns := 0)
    else
      p
  }

  function Anomaly(p: PeerState, now: nat, cfg: Tuning): PeerState {
    p.(inflight := None, grace := None, phase := Plateau, probesUsed := 0, step := cfg.raiseStep,
       nextRaiseAt := now + Min(cfg.raisePeriod, ANOMALY_REARM_CAP))
  }

  function EnterRecheck(p: PeerState): PeerState {
    p.(inflight := None, grace := None, phase := Recheck, probesUsed := 0, searchGen := NextGen(p.searchGen))
  }

  /** After the window narrowed: finish the search if it is closed, freeze it if its budget is spent. */
  function CloseOrFreeze(p: PeerState, now: nat, cfg: Tuning): PeerState {
    if !WindowClosed(p, cfg.resolveEpsilon) then MaybeBudgetFreeze(p, now, cfg)
    else if p.phase.DownSearch? then FinishDownSearch(p, now, cfg)
    else EnterPlateau(p, now, cfg)
  }

  /** A probe of `size` is known to have failed (`apply_timeout_confirmed_fail`). */
  function ConfirmedFail(isPrivate: bool, p: PeerState, size: nat, now: nat, cfg: Tuning): PeerState {
    match p.phase
    case Raise =>
      CloseOrFreeze(p.(inflight := None, firstBad := ClampSize(size), step := cfg.raiseStep, phase := Binary), now, cfg)
    case Binary | DownSearch =>
      CloseOrFreeze(p.(inflight := None, firstBad := Min(ClampSize(size), p.firstBad)), now, cfg)
    case Revalidate =>
      if p.largeAlive then Anomaly(p, now, cfg) else EnterRecheck(p)
    case Recheck =>
      SoftDown(isPrivate, p, now, cfg)
    case Plateau | Frozen => p
  }

  predicate GraceDue(p: PeerState, now: nat) {
    p.grace.Some? && now >= p.grace.value.deadline
  }

  /** First stage of a tick: an expired late-ACK grace period becomes a confirmed failure. */
  function GraceStep(isPrivate: bool, p: PeerState, now: nat, cfg: Tuning): PeerState {
    if GraceDue(p, now) then
      ConfirmedFail(isPrivate, p.(grace := None), p.grace.value.size, now, cfg)
    else
      p
  }

  /** Probe id 0 is never timed out. */
  predicate TimeoutDue(p: PeerState, now: nat) {
    p.inflight.Some? && now >= p.inflight.value.deadline && p.inflight.value.probeId != 0
  }

  /** The timed-out probe has confirmations left, so it counts again against the probe budget. */
  function Recounted(p: PeerState): PeerState {
    if p.phase.Recheck? then p else p.(probesUsed := Min(p.probesUsed + 1, 0xFFFF_FFFF))
  }

  /** A due timeout sends the same size again and so consumes one probe id. */
  predicate Resends(p: PeerState, now: nat, cfg: Tuning) {
    && TimeoutDue(p, now)
    && p.inflight.value.confirmsLeft > 1
    && (p.phase.Recheck? || Recounted(p).probesUsed < cfg.maxProbes)
  }

  /** Second stage of a tick: `on_timeout`.  `id` is the probe id used if the probe is sent again. */
  function TimeoutStep(isPrivate: bool, p: PeerState, now: nat, cfg: Tuning, id: u32): PeerState {
    if !TimeoutDue(p, now) then
      p
    else
      var inf := p.inflight.value;
      if inf.confirmsLeft > 1 then
        if Resends(p, now, cfg) then
          Recounted(p).(inflight := Some(Inflight(id, inf.size, now + TimeoutFor(p, cfg), inf.confirmsLeft - 1)))
        else
          EnterFrozen(Recounted(p), now, cfg)
      else if p.phase.Revalidate? || p.phase.Recheck? then
        p.(inflight := None,
           grace := Some(Grace(inf.probeId, inf.size, p.searchGen, now + TimeoutFor(p, cfg))))
      else
        ConfirmedFail(isPrivate, p.(inflight := None), inf.size, now, cfg)
  }

  predicate Idle(p: PeerState) {
    p.inflight.None? && p.grace.None?
  }

  /** Third stage of a tick: a due Plateau or Frozen peer starts a search. */
  function StartStep(p: PeerState, now: nat, cfg: Tuning): PeerState {
    if Idle(p) && (p.phase.Plateau? || p.phase.Frozen?) && now >= p.nextRaiseAt then
      var q := p.(probesUsed := 0, step := cfg.raiseStep, searchGen := NextGen(p.searchGen),
                  nextRaiseAt := if p.phase.Frozen? then now else p.nextRaiseAt);
      q.(phase := if RaiseTarget(q).Some? then Raise else Revalidate)
    else
      p
  }

  predicate WantsProbe(p: PeerState) {
    Idle(p) &&
    match p.phase
    case Raise => RaiseTarget(p).Some?
    case Binary | DownSearch => BinaryTarget(p).Some?
    case Revalidate | Recheck => true
    case Plateau | Frozen => false
  }

  /** The size `issue_probe` would send now, if it sends a probe at all. */
  function IssueSize(p: PeerState, cfg: Tuning): Option<nat> {
    if !Idle(p) || (!p.phase.Recheck? && p.probesUsed >= cfg.maxProbes) then
      None
    else
      match p.phase
      case Raise => RaiseTarget(p)
      case Binary | DownSearch => if WindowClosed(p, cfg.resolveEpsilon) then None else BinaryTarget(p)
      case Revalidate | Recheck => Some(ClampSize(p.stable))
      case Plateau | Frozen => None
  }

  /** Last stage of a tick: `issue_probe` with the next probe id. */
  function IssueStep(p: PeerState, now: nat, cfg: Tuning, id: u32): PeerState {
    if !Idle(p) then
      p
    else if !p.phase.Recheck? && p.probesUsed >= cfg.maxProbes then
      EnterFrozen(p, now, cfg)
    else if p.phase.DownSearch? && WindowClosed(p, cfg.resolveEpsilon) then
      FinishDownSearch(p, now, cfg)
    else if p.phase.Binary? && WindowClosed(p, cfg.resolveEpsilon) then
      EnterPlateau(p, now, cfg)
    else
      match IssueSize(p, cfg)
      case Some(size) => BeginProbe(p, id, size, now + TimeoutFor(p, cfg), cfg.confirmCount)
      case None => p
  }

  predicate MatchesInflight(p: PeerState, sz: nat, id: u32, gen: u32) {
    && p.inflight.Some?
    && gen == p.searchGen
    && p.inflight.value.probeId != 0
    && p.inflight.value.probeId == id
    && p.inflight.value.size == sz
  }

  predicate MatchesGrace(p: PeerState, sz: nat, id: u32, gen: u32, now: nat) {
    && p.inflight.None?
    && p.grace.Some?
    && p.grace.value.probeId == id
    && p.grace.value.searchGen == gen
    && p.grace.value.size == sz
    && now <= p.grace.value.deadline
  }

  /** The acknowledgement answers this peer's outstanding probe. */
  predicate Accepts(p: PeerState, sz: nat, id: u32, gen: u32, now: nat) {
    MatchesInflight(p, sz, id, gen) || MatchesGrace(p, sz, id, gen, now)
  }

  function LiftStable(p: PeerState): PeerState {
    if p.lastGood > p.stable then p.(stable := p.lastGood, lowerCampaigns := 0) else p
  }

  function AckRaise(p: PeerState, sz: nat, now: nat, cfg: Tuning): PeerState {
    var q := LiftStable(p.(lastGood := sz)).(step := Max(p.step * 2, cfg.raiseStep));
    if RaiseTarget(q).None? then
      EnterPlateau(if q.lastGood >= MAX_MTU then q.(firstBad := FIRST_BAD_SENTINEL) else q, now, cfg)
    else
      q
  }

  function AckBinary(p: PeerState, sz: nat, now: nat, cfg: Tuning): PeerState {
    var q := LiftStable(p.(lastGood := Max(sz, p.lastGood)));
    if WindowClosed(q, cfg.resolveEpsilon) then EnterPlateau(q, now, cfg) else q
  }

  function AckDownSearch(p: PeerState, sz: nat, now: nat, cfg: Tuning): PeerState {
    var q := p.(lastGood := Max(sz, p.lastGood), downsearchGotAck := true);
    if WindowClosed(q, cfg.resolveEpsilon) then FinishDownSearch(q, now, cfg) else q
  }

  /** `on_ack` on the peer it resolves to. */
  function AckStep(p: PeerState, sz: nat, id: u32, gen: u32, now: nat, cfg: Tuning): PeerState {
    if MatchesGrace(p, sz, id, gen, now) then
      EnterPlateau(p.(grace := None, everAcked := true), now, cfg)
    else if !MatchesInflight(p, sz, id, gen) then
      p
    else
      var q := p.(inflight := None, grace := None, everAcked := true);
      match p.phase
      case Raise => AckRaise(q, sz, now, cfg)
      case Binary => AckBinary(q, sz, now, cfg)
      case Revalidate | Recheck => EnterPlateau(q, now, cfg)
      case DownSearch => AckDownSearch(q, sz, now, cfg)
      case Plateau | Frozen => q
  }

  predicate HardFailHits(p: PeerState, id: u32) {
    p.inflight.Some? && p.inflight.value.probeId == id && id != 0
  }

  function HardFailStep(isPrivate: bool, p: PeerState, id: u32, now: nat, cfg: Tuning): PeerState {
    if !HardFailHits(p, id) then
      p
    else if p.phase.Revalidate? || p.phase.Recheck? then
      SoftDown(isPrivate, p.(inflight := None, grace := None), now, cfg)
    else
      ConfirmedFail(isPrivate, p, p.inflight.value.size, now, cfg)
  }

  /** Everything that can happen to one tracked peer. */
  datatype Event =
    | Tick(now: nat, cfg: Tuning, rttMs: real, largeAlive: bool, resendId: u32, tryIssue: bool, issueId: u32)
    | Ack(now: nat, cfg: Tuning, size: nat, id: u32, gen: u32)
    | HardFail(now: nat, cfg: Tuning, id: u32)
    | Retune(now: nat, cfg: Tuning)
    | Pin(now: nat, cfg: Tuning, mtu: nat)
    | Unpin(now: nat, cfg: Tuning)
    | Seed(now: nat, cfg: Tuning, mtu: nat)
    | Hint(now: nat, cfg: Tuning)
    | EarlyWake(now: nat, cfg: Tuning)

  function InputStep(p: PeerState, rttMs: real, largeAlive: bool): PeerState {
    p.(rttMs := rttMs, largeAlive := largeAlive)
  }

  /** The peer as the grace stage of a tick finds it. */
  function BeforeGrace(isPrivate: bool, p: PeerState, e: Event): PeerState
    requires e.Tick?
  {
    InputStep(Heal(isPrivate, p, e.now, e.cfg), e.rttMs, e.largeAlive)
  }

  /** The peer as the timeout stage of a tick finds it. */
  function BeforeTimeout(isPrivate: bool, p: PeerState, e: Event): PeerState
    requires e.Tick?
  {
    GraceStep(isPrivate, BeforeGrace(isPrivate, p, e), e.now, e.cfg)
  }

  function BeforeStart(isPrivate: bool, p: PeerState, e: Event): PeerState
    requires e.Tick?
  {
    TimeoutStep(isPrivate, BeforeTimeout(isPrivate, p, e), e.now, e.cfg, e.resendId)
  }

  function BeforeIssue(isPrivate: bool, p: PeerState, e: Event): PeerState
    requires e.Tick?
  {
    StartStep(BeforeStart(isPrivate, p, e), e.now, e.cfg)
  }

  function TickStep(isPrivate: bool, p: PeerState, e: Event): PeerState
    requires e.Tick?
  {
    var q := BeforeIssue(isPrivate, p, e);
    if e.tryIssue && WantsProbe(q) then IssueStep(q, e.now, e.cfg, e.issueId) else q
  }

  function RetuneStep(p: PeerState, now: nat, cfg: Tuning): PeerState {
    var q := AbortInflight(p).(step := cfg.raiseStep, probesUsed := 0);
    if IsSearching(p.phase) then q.(phase := Plateau, nextRaiseAt := now + cfg.raisePeriod) else q
  }

  function PinStep(p: PeerState, now: nat, cfg: Tuning, mtu: nat): PeerState {
    var m := ClampSize(mtu);
    AbortInflight(p).(lastGood := m, stable := m, firstBad := Min(m + 1, FIRST_BAD_SENTINEL), phase := Frozen,
                      probesUsed := 0, nextRaiseAt := now + cfg.raisePeriod, downFromStable := None,
                      downsearchGotAck := false)
  }

  function SeedStep(p: PeerState, now: nat, mtu: nat): PeerState {
    var m := ClampSize(mtu);
    p.(lastGood := m, stable := m, firstBad := Min(m + 1, FIRST_BAD_SENTINEL), phase := Plateau,
       nextRaiseAt := now, inflight := None, grace := None, probesUsed := 0)
  }

  predicate CooledDown(last: Option<nat>, now: nat, cooldown: nat) {
    last.Some? ==> Max(now - last.value, 0) >= cooldown
  }

  predicate HintTakes(p: PeerState, now: nat) {
    CooledDown(p.lastHintAt, now, REVALIDATE_HINT_COOLDOWN) && (p.phase.Plateau? || p.phase.Frozen?)
  }

  predicate WakeTakes(p: PeerState, now: nat) {
    CooledDown(p.lastWakeAt, now, EARLY_WAKE_COOLDOWN) && (p.phase.Plateau? || p.phase.Frozen?)
  }

  function Step(isPrivate: bool, p: PeerState, e: Event): PeerState {
    match e
    case Tick(_, _, _, _, _, _, _) => TickStep(isPrivate, p, e)
    case Ack(now, cfg, size, id, gen) => AckStep(p, ClampSize(size), id, gen, now, cfg)
    case HardFail(now, cfg, id) => HardFailStep(isPrivate, p, id, now, cfg)
    case Retune(now, cfg) => RetuneStep(p, now, cfg)
    case Pin(now, cfg, mtu) => PinStep(p, now, cfg, mtu)
    case Unpin(now, cfg) => Fresh(now, cfg)
    case Seed(now, _, mtu) => SeedStep(p, now, mtu)
    case Hint(now, _) => if HintTakes(p, now) then p.(nextRaiseAt := now, lastHintAt := Some(now)) else p
    case EarlyWake(now, _) => if WakeTakes(p, now) then p.(nextRaiseAt := now, lastWakeAt := Some(now)) else p
  }

  /** A peer's whole history: when it was first tracked, under which tuning, and what happened since. */
  datatype Life = Life(bornAt: nat, bornCfg: Tuning, events: seq<Event>)

  function Run(isPrivate: bool, start: PeerState, es: seq<Event>): PeerState {
    if es == [] then start else Step(isPrivate, Run(isPrivate, start, es[..|es| - 1]), es[|es| - 1])
  }

  function StateOf(isPrivate: bool, l: Life): PeerState {
    Run(isPrivate, Fresh(l.bornAt, l.bornCfg), l.events)
  }

  lemma RunExtends(isPrivate: bool, start: PeerState, es: seq<Event>, e: Event)
    ensures Run(isPrivate, start, es + [e]) == Step(isPrivate, Run(isPrivate, start, es), e)
  {
    assert (es + [e])[..|es|] == es;
  }
}
