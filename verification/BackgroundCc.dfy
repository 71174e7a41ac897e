/** Per-peer LEDBAT-style background congestion control (src/net/background_cc.rs; compare section 2.4.2 of RFC 6817).
    Rates, tokens and times are exact reals: rates in bytes per second, times in seconds, delays in milliseconds. */
module BackgroundCc {
  import opened Wrappers

  const D2R_LOSS_MAX: real := 0.12

  datatype Config = Config(
    enabled: bool,
    gain: real,
    minDecreaseFactor: real,
    additiveIncrease: real,
    smoothing: real,
    initialRate: real,
    minRate: real,
    maxRate: real,
    lossDecrease: real,
    burstCap: real,
    targetDelayMs: nat,
    holEscapeMs: nat,
    windowMs: nat,
    deliveryAlpha: real,
    anchorFactor: real,
    decoupleRatio: real,
    lossClassifier: bool,
    lossThreshold: real,
    qdTelemetryValid: bool)

  function ClampReal(x: real, lo: real, hi: real): real {
    MaxReal(lo, MinReal(x, hi))
  }

  // ---------- where valid configurations come from ----------

  /** The ranges that `clamp_rate_knobs` enforces (src/advanced_tuning.rs:426-443). */
  predicate InRange(c: Config) {
    && 0.1 <= c.gain <= 4.0
    && 4 <= c.holEscapeMs <= 100
    && 0.1 <= c.minDecreaseFactor <= 0.9
    && 4_000.0 <= c.additiveIncrease <= 1_000_000.0
    && 0.0 <= c.smoothing <= 0.95
    && 1_000.0 <= c.minRate <= c.maxRate <= 50_000_000.0
    && 0.3 <= c.lossDecrease <= 0.9
    && 512.0 <= c.burstCap <= 262_144.0
    && c.minRate <= c.initialRate <= c.maxRate
    && 100 <= c.windowMs <= 5_000
    && 0.05 <= c.deliveryAlpha <= 1.0
    && 0.5 <= c.anchorFactor <= 0.99
    && 1.05 <= c.decoupleRatio <= 3.0
  }

  /** Clamps one field after the other, later ones against earlier ones.  `f64::clamp` panics if its bounds cross, which
      happens exactly when the configured minimum exceeds 50 MB/s. */
  method ClampRateKnobs(c: Config) returns (r: Result<Config>)
    ensures r.Ok? <==> c.minRate <= 50_000_000.0
    ensures r.Ok? ==> InRange(r.value)
    ensures r.Ok? && InRange(c) ==> r.value == c
    ensures r.Ok? && c.minRate >= 1_000.0 ==> r.value.minRate == c.minRate
    ensures r.Ok? && c.minRate <= c.maxRate <= 50_000_000.0 && c.maxRate >= 1_000.0 ==> r.value.maxRate == c.maxRate
  {
    var d := c.(gain := ClampReal(c.gain, 0.1, 4.0));
    d := d.(holEscapeMs := Clamp(d.holEscapeMs, 4, 100));
    d := d.(minDecreaseFactor := ClampReal(d.minDecreaseFactor, 0.1, 0.9));
    d := d.(additiveIncrease := ClampReal(d.additiveIncrease, 4_000.0, 1_000_000.0));
    d := d.(smoothing := ClampReal(d.smoothing, 0.0, 0.95));
    d := d.(minRate := MaxReal(d.minRate, 1_000.0));
    if d.minRate > 50_000_000.0 {
      return Err;
    }
    d := d.(maxRate := ClampReal(d.maxRate, d.minRate, 50_000_000.0));
    d := d.(lossDecrease := ClampReal(d.lossDecrease, 0.3, 0.9));
    d := d.(burstCap := ClampReal(d.burstCap, 512.0, 262_144.0));
    d := d.(initialRate := ClampReal(d.initialRate, d.minRate, d.maxRate));
    d := d.(windowMs := Clamp(d.windowMs, 100, 5_000));
    d := d.(deliveryAlpha := ClampReal(d.deliveryAlpha, 0.05, 1.0));
    d := d.(anchorFactor := ClampReal(d.anchorFactor, 0.5, 0.99));
    d := d.(decoupleRatio := ClampReal(d.decoupleRatio, 1.05, 3.0));
    r := Ok(d);
  }

  // ---------- one peer ----------

  datatype Peer = Peer(
    rate: real,
    smoothed: real,
    tokens: real,
    lastLoss: real,
    bytesAcc: real,
    windowElapsed: real,
    delivery: Option<real>)

  function NewPeer(c: Config): Peer {
    Peer(c.initialRate, c.initialRate, 0.0, 0.0, 0.0, 0.0, None)
  }

  function WindowSecs(c: Config): real {
    Max(c.windowMs, 1) as real / 1000.0
  }

  /** Does this refill close the peer's delivery window? */
  predicate Closes(c: Config, p: Peer, dt: real) {
    c.enabled && dt > 0.0 && p.windowElapsed + dt >= WindowSecs(c)
  }

  function Mix(alpha: real, x: real, y: real): real {
    alpha * x + (1.0 - alpha) * y
  }

  function Refill(c: Config, p: Peer, dt: real): Peer {
    if !c.enabled || dt <= 0.0 then p
    else
      var q := p.(tokens := MinReal(p.tokens + p.smoothed * dt, c.burstCap), windowElapsed := p.windowElapsed + dt);
      if !Closes(c, p, dt) then q
      else if p.bytesAcc <= 0.0 then q.(windowElapsed := 0.0)
      else
        var sample := p.bytesAcc / q.windowElapsed;
        var alpha := ClampReal(c.deliveryAlpha, 0.05, 1.0);
        q.(delivery := Some(if p.delivery.Some? then Mix(alpha, sample, p.delivery.value) else sample),
           bytesAcc := 0.0, windowElapsed := 0.0)
  }

  function Consume(c: Config, p: Peer, len: nat): Peer {
    if !c.enabled then p
    else p.(tokens := MaxReal(p.tokens - len as real, 0.0), bytesAcc := p.bytesAcc + len as real)
  }

  function Target(c: Config): real {
    Max(c.targetDelayMs, 1) as real
  }

  /** `fec_delay_is_congestive` (src/net/fec.rs:113-120). */
  predicate DelayIsCongestive(c: Config, qd: real) {
    qd / Target(c) > c.lossThreshold
  }

  predicate DelayExcess(c: Config, qd: real) {
    qd >= 0.0 && qd / Target(c) > 1.0
  }

  /** A rising edge of the loss signal that is not put down to random loss. */
  predicate LossActionable(c: Config, p: Peer, qd: real, loss: real) {
    && loss > D2R_LOSS_MAX && p.lastLoss <= D2R_LOSS_MAX
    && (!c.lossClassifier || !c.qdTelemetryValid || qd < 0.0 || DelayIsCongestive(c, qd))
  }

  /** A decrease finds the rate far above what is being delivered, and drops to just below that. */
  predicate Anchors(c: Config, p: Peer, qd: real, loss: real) {
    && (LossActionable(c, p, qd, loss) || DelayExcess(c, qd))
    && p.delivery.Some? && p.delivery.value > 0.0
    && p.rate > p.delivery.value * c.decoupleRatio
  }

  function DelayFactor(c: Config, qd: real): real {
    ClampReal(1.0 - Scale(c.gain, qd / Target(c) - 1.0), c.minDecreaseFactor, 1.0)
  }

  function Scale(rate: real, factor: real): real {
    rate * factor
  }

  function AfterLoss(c: Config, p: Peer, qd: real, loss: real): real {
    if LossActionable(c, p, qd, loss) then MaxReal(Scale(p.rate, c.lossDecrease), c.minRate) else p.rate
  }

  /** The rate before it is clamped, when the delivery anchor does not apply. */
  function SteeredRate(c: Config, p: Peer, qd: real, loss: real): real {
    var r := AfterLoss(c, p, qd, loss);
    if qd < 0.0 then r
    else if DelayExcess(c, qd) then Scale(r, DelayFactor(c, qd))
    else r + c.additiveIncrease
  }

  function Sample(c: Config, p: Peer, qd: real, loss: real): Peer {
    if !c.enabled then p
    else if Anchors(c, p, qd, loss) then
      var r := ClampReal(p.delivery.value * c.anchorFactor, c.minRate, c.maxRate);
      p.(lastLoss := loss, rate := r, smoothed := r)
    else
      var r := ClampReal(SteeredRate(c, p, qd, loss), c.minRate, c.maxRate);
      p.(lastLoss := loss, rate := r, smoothed := Mix(ClampReal(c.smoothing, 0.0, 0.95), p.smoothed, r))
  }

  predicate CanSend(c: Config, p: Peer, len: nat, holMs: real) {
    holMs >= c.holEscapeMs as real || p.tokens >= len as real || (len as real > c.burstCap && p.tokens > 0.0)
  }

  // ---------- what every run keeps ----------

  datatype Event = Refilled(dt: real) | Sampled(qd: real, loss: real) | Consumed(len: nat)

  function Step(c: Config, p: Peer, e: Event): Peer {
    match e
    case Refilled(dt) => Refill(c, p, dt)
    case Sampled(qd, loss) => Sample(c, p, qd, loss)
    case Consumed(len) => Consume(c, p, len)
  }

  function Run(c: Config, p: Peer, es: seq<Event>): Peer {
    if es == [] then p else Step(c, Run(c, p, es[..|es| - 1]), es[|es| - 1])
  }

  predicate Bounded(c: Config, p: Peer) {
    && c.minRate <= p.rate <= c.maxRate
    && c.minRate <= p.smoothed <= c.maxRate
    && 0.0 <= p.tokens <= c.burstCap
    && 0.0 <= p.bytesAcc
    && 0.0 <= p.windowElapsed < WindowSecs(c)
    && (p.delivery.Some? ==> p.delivery.value > 0.0)
  }

  lemma MixBetween(alpha: real, x: real, y: real, lo: real, hi: real)
    requires 0.0 <= alpha <= 1.0 && lo <= x <= hi && lo <= y <= hi
    ensures lo <= Mix(alpha, x, y) <= hi
  {
    assert alpha * (x - lo) >= 0.0 && (1.0 - alpha) * (y - lo) >= 0.0;
    assert alpha * (hi - x) >= 0.0 && (1.0 - alpha) * (hi - y) >= 0.0;
  }

  lemma ProductPositive(x: real, y: real)
    requires x >= 0.0 && y > 0.0
    ensures x * y >= 0.0 && x / y >= 0.0 && (x > 0.0 ==> x / y > 0.0)
  {
  }

  lemma StepBounded(c: Config, p: Peer, e: Event)
    requires InRange(c) && Bounded(c, p)
    ensures Bounded(c, Step(c, p, e))
  {
    match e
    case Refilled(dt) =>
      if c.enabled && dt > 0.0 {
        ProductPositive(p.smoothed, dt);
        if Closes(c, p, dt) && p.bytesAcc > 0.0 {
          ProductPositive(p.bytesAcc, p.windowElapsed + dt);
          if p.delivery.Some? {
            var sample := p.bytesAcc / (p.windowElapsed + dt);
            var low := MinReal(sample, p.delivery.value);
            MixBetween(c.deliveryAlpha, sample, p.delivery.value, low, MaxReal(sample, p.delivery.value));
          }
        }
      }
    case Sampled(qd, loss) =>
      hide SteeredRate, Anchors, Mix;
      var r := ClampReal(SteeredRate(c, p, qd, loss), c.minRate, c.maxRate);
      MixBetween(c.smoothing, p.smoothed, r, c.minRate, c.maxRate);
    case Consumed(len) =>
  }

  /** The event spends tokens that are there, rather than going out on a head-of-line or oversize exception. */
  function TokenBytes(c: Config, p: Peer, e: Event): real {
    if e.Consumed? && c.enabled && p.tokens >= e.len as real then e.len as real else 0.0
  }

  function Elapsed(e: Event): real {
    if e.Refilled? && e.dt > 0.0 then e.dt else 0.0
  }

  /** Bytes that the event moves out of the accumulator into a delivery sample. */
  function ClosedBytes(c: Config, p: Peer, e: Event): real {
    if e.Refilled? && Closes(c, p, e.dt) && p.bytesAcc > 0.0 then p.bytesAcc else 0.0
  }

  function ConsumedBytes(c: Config, e: Event): real {
    if e.Consumed? && c.enabled then e.len as real else 0.0
  }

  function TotalTokenBytes(c: Config, p: Peer, es: seq<Event>): real {
    if es == [] then 0.0
    else TotalTokenBytes(c, p, es[..|es| - 1]) + TokenBytes(c, Run(c, p, es[..|es| - 1]), es[|es| - 1])
  }

  function TotalElapsed(es: seq<Event>): real {
    if es == [] then 0.0 else TotalElapsed(es[..|es| - 1]) + Elapsed(es[|es| - 1])
  }

  function TotalClosed(c: Config, p: Peer, es: seq<Event>): real {
    if es == [] then 0.0
    else TotalClosed(c, p, es[..|es| - 1]) + ClosedBytes(c, Run(c, p, es[..|es| - 1]), es[|es| - 1])
  }

  function TotalConsumed(c: Config, es: seq<Event>): real {
    if es == [] then 0.0 else TotalConsumed(c, es[..|es| - 1]) + ConsumedBytes(c, es[|es| - 1])
  }

  /** What `maxRate` allows in `elapsed` seconds. */
  function Allowance(c: Config, elapsed: real): real {
    c.maxRate * elapsed
  }

  lemma AllowanceAdds(c: Config, a: real, b: real)
    ensures Allowance(c, a + b) == Allowance(c, a) + Allowance(c, b) && Allowance(c, 0.0) == 0.0
  {
  }

  lemma StepSpends(c: Config, p: Peer, e: Event)
    requires InRange(c) && Bounded(c, p)
    ensures Step(c, p, e).tokens + TokenBytes(c, p, e) <= p.tokens + Allowance(c, Elapsed(e))
  {
    hide SteeredRate, Anchors, Mix;
    if e.Refilled? && e.dt > 0.0 {
      assert (c.maxRate - p.smoothed) * e.dt >= 0.0;
      assert p.smoothed * e.dt <= c.maxRate * e.dt;
      ProductPositive(p.smoothed, e.dt);
    }
  }

  /** Over any run: rates, tokens and the accounting window stay in bounds; what went out on tokens is at most the starting
      tokens plus `maxRate` times the elapsed time; and every consumed byte is either still accumulating or was counted in
      exactly one closed delivery window. */
  lemma {:induction false} EveryRunIsBounded(c: Config, p: Peer, es: seq<Event>)
    requires InRange(c) && Bounded(c, p)
    ensures Bounded(c, Run(c, p, es))
    ensures TotalTokenBytes(c, p, es) + Run(c, p, es).tokens <= p.tokens + Allowance(c, TotalElapsed(es))
    ensures p.bytesAcc + TotalConsumed(c, es) == Run(c, p, es).bytesAcc + TotalClosed(c, p, es)
    decreases |es|
  {
    hide Step, Bounded, TokenBytes, ClosedBytes, ConsumedBytes, Allowance, InRange;
    AllowanceAdds(c, 0.0, 0.0);
    if es != [] {
      var init, last := es[..|es| - 1], es[|es| - 1];
      var q := Run(c, p, init);
      EveryRunIsBounded(c, p, init);
      StepBounded(c, q, last);
      StepSpends(c, q, last);
      StepConserves(c, q, last);
      AllowanceAdds(c, TotalElapsed(init), Elapsed(last));
    }
  }

  lemma StepConserves(c: Config, p: Peer, e: Event)
    requires Bounded(c, p)
    ensures p.bytesAcc + ConsumedBytes(c, e) == Step(c, p, e).bytesAcc + ClosedBytes(c, p, e)
  {
    hide SteeredRate, Anchors, Mix;
  }

  lemma NewPeerBounded(c: Config)
    requires InRange(c)
    ensures Bounded(c, NewPeer(c))
  {
  }

  // ---------- does a congestion signal lower the rate? ----------

  /** Excess delay always lowers the rate, unless that is at its minimum already. */
  lemma DelayLowersExactlyWhen(c: Config, p: Peer, qd: real, loss: real)
    requires InRange(c) && c.enabled && Bounded(c, p) && DelayExcess(c, qd)
    ensures Sample(c, p, qd, loss).rate < p.rate <==> p.rate > c.minRate
  {
    hide Anchors, SteeredRate, Mix, DelayExcess;
    if Anchors(c, p, qd, loss) {
      AnchoredRateIsLower(c, p, qd, loss);
    } else {
      SteeredRateIsLower(c, p, qd, loss);
    }
  }

  lemma AnchoredRateIsLower(c: Config, p: Peer, qd: real, loss: real)
    requires InRange(c) && Anchors(c, p, qd, loss)
    ensures p.delivery.value * c.anchorFactor < p.rate
  {
    hide LossActionable, DelayExcess;
    AnchorLowers(p.delivery.value, c.anchorFactor, c.decoupleRatio);
  }

  lemma SteeredRateIsLower(c: Config, p: Peer, qd: real, loss: real)
    requires InRange(c) && Bounded(c, p) && DelayExcess(c, qd)
    ensures SteeredRate(c, p, qd, loss) < p.rate
  {
    hide AfterLoss, DelayFactor, Scale;
    LossCutIsLower(c, p, qd, loss);
    DelayFactorRange(c, qd);
    ScaledDown(AfterLoss(c, p, qd, loss), DelayFactor(c, qd));
  }

  lemma LossCutIsLower(c: Config, p: Peer, qd: real, loss: real)
    requires InRange(c) && Bounded(c, p)
    ensures c.minRate <= AfterLoss(c, p, qd, loss) <= p.rate
  {
    hide LossActionable, Scale;
    ScaledDown(p.rate, c.lossDecrease);
  }

  lemma DelayFactorRange(c: Config, qd: real)
    requires InRange(c) && DelayExcess(c, qd)
    ensures c.minDecreaseFactor <= DelayFactor(c, qd) < 1.0
    ensures qd >= 0.0
  {
    hide Scale;
    ScaledPositive(c.gain, qd / Target(c) - 1.0);
  }

  lemma ScaledPositive(x: real, f: real)
    requires x > 0.0 && f > 0.0
    ensures Scale(x, f) > 0.0
  {
  }

  lemma ScaledDown(x: real, f: real)
    requires x >= 0.0 && f <= 1.0
    ensures Scale(x, f) <= x && (x > 0.0 && f < 1.0 ==> Scale(x, f) < x)
  {
    assert x * (1.0 - f) >= 0.0;
  }

  lemma AnchorLowers(delivery: real, anchor: real, ratio: real)
    requires delivery > 0.0 && anchor <= 0.99 && ratio >= 1.05
    ensures delivery * anchor < delivery * ratio
  {
  }

  /** An actionable loss without excess delay is followed by the additive increase, so it lowers the rate exactly when the
      multiplicative cut outweighs that increase, or the rate is at its maximum anyway. */
  lemma LossLowersExactlyWhen(c: Config, p: Peer, qd: real, loss: real)
    requires InRange(c) && c.enabled && Bounded(c, p)
    requires LossActionable(c, p, qd, loss) && 0.0 <= qd && !DelayExcess(c, qd) && !Anchors(c, p, qd, loss)
    ensures Sample(c, p, qd, loss).rate <= p.rate <==>
              p.rate == c.maxRate || MaxReal(Scale(p.rate, c.lossDecrease), c.minRate) + c.additiveIncrease <= p.rate
  {
    hide Anchors, LossActionable, Scale, Mix;
  }

  /** `BackgroundCcConfig::default`, enabled. */
  const DEFAULT: Config :=
    Config(true, 0.1, 0.9, 32_000.0, 0.9, 4_000_000.0, 1_500_000.0, 25_000_000.0, 0.9, 24_000.0, 20, 8, 750, 0.25, 0.95, 1.5,
           true, 0.7, true)

  /** A delay far above the target cuts a tenth off the rate, down to the minimum. */
  lemma LongDelayCuts(p: Peer)
    requires p.delivery.None? && p.rate >= DEFAULT.minRate && p.rate <= DEFAULT.maxRate
    ensures var q := Sample(DEFAULT, p, 1000.0, 0.0);
            q.delivery.None? && q.lastLoss == 0.0 && q.rate == MaxReal(p.rate * 0.9, DEFAULT.minRate)
  {
    assert 1000.0 / Target(DEFAULT) == 50.0;
    assert DelayFactor(DEFAULT, 1000.0) == 0.9;
  }

  /** A new peer after `n` samples of long delay. */
  function Delayed(n: nat): Peer {
    if n == 0 then NewPeer(DEFAULT) else Sample(DEFAULT, Delayed(n - 1), 1000.0, 0.0)
  }

  lemma {:induction false} DelayedIsRun(n: nat)
    ensures Delayed(n) == Run(DEFAULT, NewPeer(DEFAULT), seq(n, _ => Sampled(1000.0, 0.0)))
  {
    if n > 0 {
      DelayedIsRun(n - 1);
      assert seq(n, _ => Sampled(1000.0, 0.0))[..n - 1] == seq(n - 1, _ => Sampled(1000.0, 0.0));
    }
  }

  lemma {:induction false} DelayedRate(n: nat)
    ensures var p := Delayed(n);
            && p.delivery.None? && p.lastLoss == 0.0
            && DEFAULT.minRate <= p.rate <= MaxReal(DEFAULT.minRate, 4_000_000.0 - 150_000.0 * n as real)
  {
    hide Sample;
    if n > 0 {
      DelayedRate(n - 1);
      LongDelayCuts(Delayed(n - 1));
    }
  }

  lemma LossAtMinimum(p: Peer)
    requires p.delivery.None? && p.lastLoss == 0.0 && p.rate == DEFAULT.minRate
    ensures LossActionable(DEFAULT, p, 15.0, 0.5) && Sample(DEFAULT, p, 15.0, 0.5).rate == p.rate + 32_000.0
  {
    assert 15.0 / Target(DEFAULT) == 0.75;
    assert Scale(p.rate, DEFAULT.lossDecrease) == 1_350_000.0;
  }

  /** Loss can raise the rate.  Under the default configuration seventeen samples of long delay bring a new peer to the minimum
      rate; a loss at three quarters of the target delay then counts as congestion, and is answered by the additive increase. */
  lemma LossCanRaise()
    ensures InRange(DEFAULT)
    ensures var p := Run(DEFAULT, NewPeer(DEFAULT), seq(17, _ => Sampled(1000.0, 0.0)));
            && p.rate == DEFAULT.minRate && LossActionable(DEFAULT, p, 15.0, 0.5)
            && Sample(DEFAULT, p, 15.0, 0.5).rate == p.rate + 32_000.0
  {
    hide Delayed, Run, Sample, LossActionable;
    DelayedIsRun(17);
    DelayedRate(17);
    LossAtMinimum(Delayed(17));
  }

  /** Without a decrease a delay below the target raises the rate, unless that is at its maximum already. */
  lemma CalmRaisesExactlyWhen(c: Config, p: Peer, qd: real, loss: real)
    requires InRange(c) && c.enabled && Bounded(c, p)
    requires 0.0 <= qd && !DelayExcess(c, qd) && !LossActionable(c, p, qd, loss)
    ensures Sample(c, p, qd, loss).rate > p.rate <==> p.rate < c.maxRate
  {
    hide LossActionable, DelayExcess, Mix;
  }

  /** Without delay telemetry the rate is never raised, and lowered only by loss. */
  lemma ColdDelayNeverRaises(c: Config, p: Peer, qd: real, loss: real)
    requires InRange(c) && c.enabled && Bounded(c, p) && qd < 0.0
    ensures Sample(c, p, qd, loss).rate <= p.rate
    ensures !LossActionable(c, p, qd, loss) ==> Sample(c, p, qd, loss).rate == p.rate
  {
    hide LossActionable, Mix, Scale;
    LossCutIsLower(c, p, qd, loss);
    if Anchors(c, p, qd, loss) {
      AnchoredRateIsLower(c, p, qd, loss);
    }
  }

  /** A loss that comes without congestive delay is put down to chance: it changes the rate no more than no loss at all. */
  lemma RandomLossIsIgnored(c: Config, p: Peer, qd: real, loss: real)
    requires c.lossClassifier && c.qdTelemetryValid && qd >= 0.0 && !DelayIsCongestive(c, qd)
    ensures Sample(c, p, qd, loss).rate == Sample(c, p, qd, 0.0).rate
    ensures Sample(c, p, qd, loss).smoothed == Sample(c, p, qd, 0.0).smoothed
  {
    hide DelayIsCongestive, DelayExcess, Mix, Scale, DelayFactor;
  }

  /** The smoothed rate, which fills the bucket, moves towards the new rate and never past it. */
  lemma SmoothedFollows(c: Config, p: Peer, qd: real, loss: real)
    requires InRange(c) && c.enabled
    ensures var q := Sample(c, p, qd, loss);
            MinReal(p.smoothed, q.rate) <= q.smoothed <= MaxReal(p.smoothed, q.rate)
    ensures Anchors(c, p, qd, loss) ==> var q := Sample(c, p, qd, loss); q.smoothed == q.rate
  {
    hide Anchors, SteeredRate, Mix;
    var r := ClampReal(SteeredRate(c, p, qd, loss), c.minRate, c.maxRate);
    MixBetween(c.smoothing, p.smoothed, r, MinReal(p.smoothed, r), MaxReal(p.smoothed, r));
  }

  // ---------- loss acts on rising edges, delivery is averaged ----------

  /** The loss of the last sample in the run, or the one that the peer started with. */
  function LastLoss(p: Peer, es: seq<Event>): real {
    if es == [] then p.lastLoss
    else if es[|es| - 1].Sampled? then es[|es| - 1].loss
    else LastLoss(p, es[..|es| - 1])
  }

  /** Over any run, a loss is acted on only if the last sample before it was not lossy: one cut for each rising edge,
      whatever was refilled, sent or anchored in between. */
  lemma LossActsOncePerEdge(c: Config, p: Peer, es: seq<Event>, qd: real, loss: real)
    requires c.enabled && LossActionable(c, Run(c, p, es), qd, loss)
    ensures loss > D2R_LOSS_MAX >= LastLoss(p, es)
  {
    LastLossKept(c, p, es);
  }

  lemma {:induction false} LastLossKept(c: Config, p: Peer, es: seq<Event>)
    requires c.enabled
    ensures Run(c, p, es).lastLoss == LastLoss(p, es)
    decreases |es|
  {
    hide SteeredRate, Anchors, Mix, Closes;
    if es != [] {
      LastLossKept(c, p, es[..|es| - 1]);
    }
  }

  /** A closed window moves the delivery estimate towards the rate at which its bytes went out, leaving exactly the share
      1 - alpha of the distance; the first window sets it. */
  lemma DeliveryApproachesSample(c: Config, p: Peer, dt: real)
    requires InRange(c) && Bounded(c, p) && Closes(c, p, dt) && p.bytesAcc > 0.0
    ensures p.windowElapsed + dt > 0.0
    ensures var sample := p.bytesAcc / (p.windowElapsed + dt);
            var q := Refill(c, p, dt);
            && q.delivery.Some?
            && q.delivery.value - sample ==
                 if p.delivery.Some? then (1.0 - c.deliveryAlpha) * (p.delivery.value - sample) else 0.0
  {
    var sample := p.bytesAcc / (p.windowElapsed + dt);
    if p.delivery.Some? {
      MixDistance(c.deliveryAlpha, sample, p.delivery.value);
    }
  }

  lemma MixDistance(alpha: real, x: real, y: real)
    ensures Mix(alpha, x, y) - x == (1.0 - alpha) * (y - x)
  {
  }

  // ---------- a waiting packet gets its tokens ----------

  predicate NoSends(es: seq<Event>) {
    forall e :: e in es ==> !e.Consumed?
  }

  /** What `minRate` guarantees in `elapsed` seconds. */
  function Guarantee(c: Config, elapsed: real): real {
    c.minRate * elapsed
  }

  lemma GuaranteeAdds(c: Config, a: real, b: real)
    ensures Guarantee(c, a + b) == Guarantee(c, a) + Guarantee(c, b) && Guarantee(c, 0.0) == 0.0
  {
  }

  lemma StepFills(c: Config, p: Peer, e: Event)
    requires InRange(c) && Bounded(c, p) && c.enabled && !e.Consumed?
    ensures Step(c, p, e).tokens >= MinReal(c.burstCap, p.tokens + Guarantee(c, Elapsed(e)))
  {
    hide SteeredRate, Anchors, Mix;
    if e.Refilled? && e.dt > 0.0 {
      assert (p.smoothed - c.minRate) * e.dt >= 0.0;
      assert p.smoothed * e.dt >= c.minRate * e.dt;
    }
  }

  /** However the rate is steered meanwhile, tokens grow by at least `minRate` until the bucket is full, so a packet that
      fits the bucket waits at most its length divided by `minRate`. */
  lemma {:induction false} TokensGrow(c: Config, p: Peer, es: seq<Event>)
    requires InRange(c) && Bounded(c, p) && c.enabled && NoSends(es)
    ensures Run(c, p, es).tokens >= MinReal(c.burstCap, p.tokens + Guarantee(c, TotalElapsed(es)))
    decreases |es|
  {
    hide Step, Bounded, InRange, Guarantee, Elapsed;
    GuaranteeAdds(c, 0.0, 0.0);
    if es != [] {
      var init, last := es[..|es| - 1], es[|es| - 1];
      assert last in es;
      TokensGrow(c, p, init);
      EveryRunIsBounded(c, p, init);
      StepFills(c, Run(c, p, init), last);
      ElapsedNotNegative(c, last);
      GuaranteeAdds(c, TotalElapsed(init), Elapsed(last));
    }
  }

  lemma ElapsedNotNegative(c: Config, e: Event)
    requires InRange(c)
    ensures Guarantee(c, Elapsed(e)) >= 0.0
  {
  }

  lemma WaitingPacketGoes(c: Config, p: Peer, es: seq<Event>, len: nat, holMs: real)
    requires InRange(c) && Bounded(c, p) && c.enabled && NoSends(es)
    requires len as real <= c.burstCap && len as real <= Guarantee(c, TotalElapsed(es))
    ensures CanSend(c, Run(c, p, es), len, holMs)
  {
    TokensGrow(c, p, es);
  }

  // ---------- the engine ----------

  type Endpoint = nat

  ghost predicate Tracks(c: Config, peers: map<Endpoint, Peer>, history: map<Endpoint, seq<Event>>) {
    && history.Keys == peers.Keys
    && forall ep :: ep in peers ==> peers[ep] == Run(c, NewPeer(c), history[ep])
  }

  lemma TracksSamePeers(c: Config, peers: map<Endpoint, Peer>, history: map<Endpoint, seq<Event>>)
    requires Tracks(c, peers, history)
    ensures history.Keys == peers.Keys
  {
  }

  lemma StepTracked(c: Config, peers: map<Endpoint, Peer>, history: map<Endpoint, seq<Event>>, ep: Endpoint, e: Event)
    requires Tracks(c, peers, history) && ep in peers && ep in history
    ensures Tracks(c, peers[ep := Step(c, peers[ep], e)], history[ep := history[ep] + [e]])
  {
    hide Step, Run;
    RunExtends(c, NewPeer(c), history[ep], e);
  }

  /** Every peer of an engine is where its own history of refills, samples and sends leads from a new peer. */
  class BackgroundCcEngine {
    const config: Config
    var peers: map<Endpoint, Peer>
    ghost var history: map<Endpoint, seq<Event>>

    ghost predicate Valid()
      reads this
    {
      Tracks(config, peers, history)
    }

    constructor (config: Config)
      ensures Valid() && peers == map[] && this.config == config
    {
      this.config, peers, history := config, map[], map[];
    }

    method RefillAllTokens(dt: real)
      requires Valid()
      modifies this
      ensures Valid()
      ensures !config.enabled || dt <= 0.0 ==> peers == old(peers) && history == old(history)
      ensures config.enabled && dt > 0.0 ==>
                history == map ep | ep in old(history) :: old(history)[ep] + [Refilled(dt)]
    {
      hide Tracks, Refill;
      if !config.enabled || dt <= 0.0 {
        return;
      }
      TracksSamePeers(config, peers, history);
      var todo := peers.Keys;
      while todo != {}
        invariant todo <= peers.Keys == old(history).Keys == history.Keys
        invariant Valid()
        invariant forall ep :: ep in history && ep in todo ==> history[ep] == old(history)[ep]
        invariant forall ep :: ep in history && ep !in todo ==> history[ep] == old(history)[ep] + [Refilled(dt)]
        decreases |todo|
      {
        var ep :| ep in todo;
        StepTracked(config, peers, history, ep, Refilled(dt));
        peers, history := peers[ep := Refill(config, peers[ep], dt)], history[ep := history[ep] + [Refilled(dt)]];
        todo := todo - {ep};
      }
    }

    method EnsurePeer(dest: Endpoint)
      requires Valid()
      modifies this
      ensures Valid()
      ensures history == if config.enabled && dest !in old(history) then old(history)[dest := []] else old(history)
    {
      if config.enabled && dest !in peers {
        peers, history := peers[dest := NewPeer(config)], history[dest := []];
      }
    }

    method OnCcSample(dest: Endpoint, qd: real, loss: real)
      requires Valid()
      modifies this
      ensures Valid()
      ensures !config.enabled ==> history == old(history)
      ensures config.enabled ==>
                history == old(history)[dest := (if dest in old(history) then old(history)[dest] else []) + [Sampled(qd, loss)]]
    {
      if config.enabled {
        EnsurePeer(dest);
        hide Tracks, Sample;
        TracksSamePeers(config, peers, history);
        StepTracked(config, peers, history, dest, Sampled(qd, loss));
        peers := peers[dest := Sample(config, peers[dest], qd, loss)];
        history := history[dest := history[dest] + [Sampled(qd, loss)]];
      }
    }

    /** A peer's data waits only if its bucket is short, its head of line is recent and it is not an oversize packet. */
    method CanSendData(dest: Endpoint, len: nat, holMs: real) returns (ok: bool)
      requires Valid()
      ensures !ok <==>
                && config.enabled && dest in peers && holMs < config.holEscapeMs as real
                && peers[dest].tokens < len as real && (len as real <= config.burstCap || peers[dest].tokens <= 0.0)
    {
      ok := !config.enabled || dest !in peers || CanSend(config, peers[dest], len, holMs);
    }

    method ConsumeSendBytes(dest: Endpoint, len: nat)
      requires Valid()
      modifies this
      ensures Valid()
      ensures history == if config.enabled && dest in old(history)
                         then old(history)[dest := old(history)[dest] + [Consumed(len)]] else old(history)
    {
      if config.enabled && dest in peers {
        StepTracked(config, peers, history, dest, Consumed(len));
        peers := peers[dest := Consume(config, peers[dest], len)];
        history := history[dest := history[dest] + [Consumed(len)]];
      }
    }

    method RemovePeer(dest: Endpoint)
      requires Valid()
      modifies this
      ensures Valid() && history == old(history) - {dest}
    {
      peers, history := peers - {dest}, history - {dest};
    }

    /** However the engine was driven, with a clamped configuration all its peers are in bounds and none has sent more on
        tokens than `maxRate` allows for the time it was refilled. */
    lemma PeersAreBounded(ep: Endpoint)
      requires Valid() && InRange(config) && ep in peers
      ensures Bounded(config, peers[ep])
      ensures TotalTokenBytes(config, NewPeer(config), history[ep]) <= Allowance(config, TotalElapsed(history[ep]))
      ensures TotalConsumed(config, history[ep]) == peers[ep].bytesAcc + TotalClosed(config, NewPeer(config), history[ep])
    {
      NewPeerBounded(config);
      EveryRunIsBounded(config, NewPeer(config), history[ep]);
    }
  }

  lemma RunExtends(c: Config, p: Peer, es: seq<Event>, e: Event)
    ensures Run(c, p, es + [e]) == Step(c, Run(c, p, es), e)
  {
    assert (es + [e])[..|es|] == es;
  }
}
