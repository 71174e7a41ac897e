/** The per-source token-bucket limiter for control packets (`ControlRateLimiter` in src/crypto.rs).  Token counts
    are exact reals and times are in seconds. */
module RateLimiter {
  import opened Wrappers

  const REAP_AFTER: real := 300.0
  const REAP_INTERVAL: real := 60.0
  const MAX_ENTRIES: nat := 65_536

  datatype Bucket = Bucket(tokens: real, lastRefill: real, lastSeen: real)

  type Entries = map<nat, Bucket>

  datatype Limits = Limits(capacity: real, refill: real)

  datatype Limiter = Limiter(entries: Entries, limits: Limits, lastReap: real)

  datatype Answer = Granted | Refused | TableFull

  datatype Call = Call(src: nat, now: real)

  predicate ValidLimits(m: Limits) {
    m.capacity >= 0.0 && m.refill >= 0.0
  }

  function FullBucket(m: Limits, now: real): Bucket {
    Bucket(m.capacity, now, now)
  }

  /** Tokens that flow in during `elapsed` seconds. */
  function Gain(m: Limits, elapsed: real): real {
    elapsed * m.refill
  }

  /** Tokens in the bucket once it has been topped up at `now`. */
  function Level(b: Bucket, m: Limits, now: real): real {
    MinReal(b.tokens + Gain(m, now - b.lastRefill), m.capacity)
  }

  function Charge(b: Bucket, m: Limits, now: real): Bucket {
    var level := Level(b, m, now);
    Bucket(if level < 1.0 then level else level - 1.0, now, now)
  }

  function Reaped(entries: Entries, now: real): Entries {
    map s | s in entries && now - entries[s].lastSeen <= REAP_AFTER :: entries[s]
  }

  /** The housekeeping that `allow` does before it looks at the caller's bucket. */
  function Housekept(l: Limiter, c: Call): Limiter {
    var swept := if c.now - l.lastReap >= REAP_INTERVAL
                 then l.(entries := Reaped(l.entries, c.now), lastReap := c.now) else l;
    if |swept.entries| >= MAX_ENTRIES && c.src !in swept.entries
    then swept.(entries := Reaped(swept.entries, c.now), lastReap := c.now)
    else swept
  }

  function BucketFor(entries: Entries, m: Limits, c: Call): Bucket {
    if c.src in entries then entries[c.src] else FullBucket(m, c.now)
  }

  function Allow(l: Limiter, c: Call): (Limiter, Answer) {
    var h := Housekept(l, c);
    if |h.entries| >= MAX_ENTRIES && c.src !in h.entries then
      (h, TableFull)
    else
      var b := BucketFor(h.entries, h.limits, c);
      (h.(entries := h.entries[c.src := Charge(b, h.limits, c.now)]),
       if Level(b, h.limits, c.now) < 1.0 then Refused else Granted)
  }

  class ControlRateLimiter {
    var entries: Entries
    const limits: Limits
    var lastReap: real

    function View(): Limiter
      reads this
    {
      Limiter(entries, limits, lastReap)
    }

    constructor (capacity: real, refill: real, now: real)
      ensures View() == Limiter(map[], Limits(capacity, refill), now)
    {
      entries, limits, lastReap := map[], Limits(capacity, refill), now;
    }

    method Admit(src: nat, now: real) returns (ok: bool)
      modifies this
      ensures View() == Allow(old(View()), Call(src, now)).0
      ensures ok <==> Allow(old(View()), Call(src, now)).1.Granted?
    {
      hide Gain;
      if now - lastReap >= REAP_INTERVAL {
        entries, lastReap := Reaped(entries, now), now;
      }
      if |entries| >= MAX_ENTRIES && src !in entries {
        entries, lastReap := Reaped(entries, now), now;
        if |entries| >= MAX_ENTRIES {
          return false;
        }
      }
      assert View() == Housekept(old(View()), Call(src, now));
      var bucket := if src in entries then entries[src] else FullBucket(limits, now);
      var elapsed := now - bucket.lastRefill;
      var tokens := MinReal(bucket.tokens + Gain(limits, elapsed), limits.capacity);
      ok := tokens >= 1.0;
      entries := entries[src := Bucket(if ok then tokens - 1.0 else tokens, now, now)];
    }
  }

  // ---------- reaping is invisible ----------

  /** A ledger that never forgets a source answers from its own bucket. */
  function LedgerAllow(ledger: Entries, m: Limits, c: Call): (Entries, bool) {
    var b := BucketFor(ledger, m, c);
    (ledger[c.src := Charge(b, m, c.now)], Level(b, m, c.now) >= 1.0)
  }

  predicate Ordered(from: real, calls: seq<Call>)
    decreases |calls|
  {
    calls == [] || (from <= calls[0].now && Ordered(calls[0].now, calls[1..]))
  }

  /** The limiter and the never-forgetting ledger give the same answers, call by call; a call that finds the table
      full is refused and leaves the ledger alone. */
  predicate Agree(l: Limiter, ledger: Entries, calls: seq<Call>)
    decreases |calls|
  {
    if calls == [] then true
    else
      var (l', answer) := Allow(l, calls[0]);
      if answer.TableFull? then
        Agree(l', ledger, calls[1..])
      else
        var (ledger', ok) := LedgerAllow(ledger, l.limits, calls[0]);
        (answer.Granted? <==> ok) && Agree(l', ledger', calls[1..])
  }

  /** What is in the table is in the ledger, and what only the ledger still knows is full again. */
  ghost predicate Covers(entries: Entries, ledger: Entries, m: Limits, now: real) {
    && (forall s :: s in entries ==> s in ledger && entries[s] == ledger[s])
    && (forall s :: s in ledger ==> ledger[s].tokens >= 0.0 && ledger[s].lastSeen == ledger[s].lastRefill <= now)
    && (forall s :: s in ledger && s !in entries ==>
          ledger[s].tokens + Gain(m, now - ledger[s].lastRefill) >= m.capacity)
  }

  lemma GainGrows(m: Limits, a: real, b: real)
    requires m.refill >= 0.0 && a <= b
    ensures Gain(m, a) <= Gain(m, b)
    ensures Gain(m, b) == Gain(m, a) + Gain(m, b - a)
    ensures Gain(m, 0.0) == 0.0 <= Gain(m, b - a)
  {
    assert (b - a) * m.refill >= 0.0;
  }

  lemma CoversLater(entries: Entries, ledger: Entries, m: Limits, now: real, later: real)
    requires Covers(entries, ledger, m, now) && now <= later && ValidLimits(m)
    ensures Covers(entries, ledger, m, later)
  {
    hide Gain;
    forall s | s in ledger && s !in entries
      ensures ledger[s].tokens + Gain(m, later - ledger[s].lastRefill) >= m.capacity
    {
      GainGrows(m, now - ledger[s].lastRefill, later - ledger[s].lastRefill);
    }
  }

  lemma CoversReaped(entries: Entries, ledger: Entries, m: Limits, now: real)
    requires Covers(entries, ledger, m, now) && ValidLimits(m) && m.capacity <= Gain(m, REAP_AFTER)
    ensures Covers(Reaped(entries, now), ledger, m, now)
  {
    hide Gain;
    forall s | s in ledger && s !in Reaped(entries, now)
      ensures ledger[s].tokens + Gain(m, now - ledger[s].lastRefill) >= m.capacity
    {
      if s in entries {
        GainGrows(m, REAP_AFTER, now - ledger[s].lastRefill);
      }
    }
  }

  lemma StepAgrees(l: Limiter, ledger: Entries, c: Call, before: real)
    requires ValidLimits(l.limits) && l.limits.capacity <= Gain(l.limits, REAP_AFTER)
    requires Covers(l.entries, ledger, l.limits, before) && before <= c.now
    ensures var (l', answer) := Allow(l, c);
            var (ledger', ok) := LedgerAllow(ledger, l.limits, c);
            l'.limits == l.limits &&
            if answer.TableFull? then Covers(l'.entries, ledger, l.limits, c.now)
            else (answer.Granted? <==> ok) && Covers(l'.entries, ledger', l.limits, c.now)
  {
    hide Reaped, Gain, Covers;
    CoversLater(l.entries, ledger, l.limits, before, c.now);
    CoversReaped(l.entries, ledger, l.limits, c.now);
    CoversReaped(Reaped(l.entries, c.now), ledger, l.limits, c.now);
    var h := Housekept(l, c);
    assert Covers(h.entries, ledger, l.limits, c.now);
    SameLevel(h.entries, ledger, l.limits, c);
    ChargeCovers(h.entries, ledger, l.limits, c);
  }

  lemma ChargeCovers(entries: Entries, ledger: Entries, m: Limits, c: Call)
    requires Covers(entries, ledger, m, c.now) && ValidLimits(m)
    ensures Covers(entries[c.src := Charge(BucketFor(entries, m, c), m, c.now)],
                   ledger[c.src := Charge(BucketFor(ledger, m, c), m, c.now)], m, c.now)
  {
    hide Gain;
    SameLevel(entries, ledger, m, c);
  }

  lemma SameLevel(entries: Entries, ledger: Entries, m: Limits, c: Call)
    requires Covers(entries, ledger, m, c.now) && ValidLimits(m)
    ensures Level(BucketFor(entries, m, c), m, c.now) == Level(BucketFor(ledger, m, c), m, c.now)
    ensures Level(BucketFor(ledger, m, c), m, c.now) >= 0.0
  {
    hide Gain;
    GainGrows(m, 0.0, 0.0);
    if c.src in ledger {
      GainGrows(m, 0.0, c.now - ledger[c.src].lastRefill);
    }
  }

  lemma {:induction false} RunsAgree(l: Limiter, ledger: Entries, calls: seq<Call>, from: real)
    requires ValidLimits(l.limits) && l.limits.capacity <= Gain(l.limits, REAP_AFTER)
    requires Covers(l.entries, ledger, l.limits, from) && Ordered(from, calls)
    ensures Agree(l, ledger, calls)
    decreases |calls|
  {
    if calls != [] {
      hide Allow, LedgerAllow, Covers;
      StepAgrees(l, ledger, calls[0], from);
      var (l', answer) := Allow(l, calls[0]);
      var (ledger', ok) := LedgerAllow(ledger, l.limits, calls[0]);
      RunsAgree(l', if answer.TableFull? then ledger else ledger', calls[1..], calls[0].now);
    }
  }

  /** A limiter that knows only source 0, with no later sweep than the last call. */
  ghost predicate Solo(l: Limiter, m: Limits, b: Bucket) {
    l.limits == m && l.entries == map[0 := b] && b.lastSeen == b.lastRefill && l.lastReap <= b.lastSeen
  }

  lemma SoloCall(l: Limiter, m: Limits, b: Bucket, now: real)
    requires Solo(l, m, b) && b.lastSeen <= now
    ensures var kept := now - b.lastSeen <= REAP_AFTER;
            var used := if kept then b else FullBucket(m, now);
            var (l', answer) := Allow(l, Call(0, now));
            && Solo(l', m, Charge(used, m, now))
            && answer == if Level(used, m, now) < 1.0 then Refused else Granted
  {
    hide Gain;
    assert |l.entries| == 1;
    assert Reaped(l.entries, now) == if now - b.lastSeen <= REAP_AFTER then l.entries else map[];
  }

  lemma LedgerCall(m: Limits, b: Bucket, now: real)
    ensures var (ledger', ok) := LedgerAllow(map[0 := b], m, Call(0, now));
            ledger' == map[0 := Charge(b, m, now)] && (ok <==> Level(b, m, now) >= 1.0)
  {
  }

  /** Once the limiter believes in more tokens than the ledger, some later calls tell them apart. */
  lemma {:induction false} UnequalBucketsDiffer(l: Limiter, m: Limits, b: Bucket, d: Bucket) returns (calls: seq<Call>)
    requires ValidLimits(m) && m.capacity >= 1.0 && Solo(l, m, b) && b.lastRefill == d.lastRefill
    requires 0.0 <= d.tokens < b.tokens <= m.capacity
    requires m.refill > 0.0 || d.tokens < 1.0 <= b.tokens
    ensures Ordered(b.lastRefill, calls) && !Agree(l, map[0 := d], calls)
    decreases d.tokens.Floor
  {
    hide Gain, Allow, LedgerAllow;
    GainGrows(m, 0.0, 0.0);
    var t := b.lastRefill;
    if b.tokens >= 1.0 {
      SoloCall(l, m, b, t);
      LedgerCall(m, d, t);
      calls := [Call(0, t)];
      if d.tokens >= 1.0 {
        var rest := UnequalBucketsDiffer(Allow(l, Call(0, t)).0, m, Charge(b, m, t), Charge(d, m, t));
        calls := [Call(0, t)] + rest;
        assert calls[1..] == rest;
      }
    } else {
      var wait := (1.0 - b.tokens) / m.refill;
      GainOf(m, 1.0 - b.tokens);
      GainGrows(m, 0.0, wait);
      SoloCall(l, m, b, t + wait);
      LedgerCall(m, d, t + wait);
      calls := [Call(0, t + wait)];
    }
  }

  lemma GainOf(m: Limits, tokens: real)
    requires m.refill > 0.0 && tokens >= 0.0
    ensures Gain(m, tokens / m.refill) == tokens && tokens / m.refill >= 0.0
  {
  }

  /** With more capacity than 300 seconds refill, forgetting an idle source shows. */
  lemma {:induction false} ReapingShows(l: Limiter, m: Limits, b: Bucket) returns (calls: seq<Call>)
    requires ValidLimits(m) && m.capacity >= 1.0 && Gain(m, REAP_AFTER) < m.capacity
    requires Solo(l, m, b) && 0.0 <= b.tokens <= m.capacity
    ensures Ordered(b.lastRefill, calls) && !Agree(l, map[0 := b], calls)
    decreases b.tokens.Floor
  {
    hide Gain, Allow, LedgerAllow;
    GainGrows(m, 0.0, 0.0);
    var t := b.lastRefill;
    if b.tokens >= 1.0 {
      SoloCall(l, m, b, t);
      LedgerCall(m, b, t);
      var rest := ReapingShows(Allow(l, Call(0, t)).0, m, Charge(b, m, t));
      calls := [Call(0, t)] + rest;
      assert calls[1..] == rest;
    } else if b.tokens + Gain(m, REAP_AFTER) < 1.0 {
      var extra := LittleMore(m, 1.0 - b.tokens - Gain(m, REAP_AFTER));
      calls := IdleThenCall(l, m, b, extra);
    } else {
      WaitIsShort(m, b.tokens);
      var wait := (1.0 - b.tokens) / m.refill;
      GainOf(m, 1.0 - b.tokens);
      SoloCall(l, m, b, t + wait);
      LedgerCall(m, b, t + wait);
      var extra := LittleMore(m, m.capacity - Gain(m, REAP_AFTER));
      var rest := IdleThenCall(Allow(l, Call(0, t + wait)).0, m, Charge(b, m, t + wait), extra);
      calls := [Call(0, t + wait)] + rest;
      assert calls[1..] == rest;
    }
  }

  lemma WaitIsShort(m: Limits, tokens: real)
    requires ValidLimits(m) && 0.0 <= tokens < 1.0 <= tokens + Gain(m, REAP_AFTER)
    ensures m.refill > 0.0 && 0.0 <= (1.0 - tokens) / m.refill <= REAP_AFTER
  {
    var wait := (1.0 - tokens) / m.refill;
    assert wait * m.refill == 1.0 - tokens;
    if wait > REAP_AFTER {
      assert false;
    }
  }

  lemma LittleMore(m: Limits, room: real) returns (extra: real)
    requires m.refill >= 0.0 && room > 0.0
    ensures extra > 0.0 && Gain(m, REAP_AFTER + extra) < Gain(m, REAP_AFTER) + room
  {
    extra := if m.refill == 0.0 then 1.0 else room / m.refill / 2.0;
    assert extra * m.refill < room;
    assert (REAP_AFTER + extra) * m.refill == REAP_AFTER * m.refill + extra * m.refill;
  }

  /** After a drained bucket idles for just over 300 seconds, the limiter has forgotten it and the ledger has not. */
  lemma IdleThenCall(l: Limiter, m: Limits, b: Bucket, extra: real) returns (calls: seq<Call>)
    requires ValidLimits(m) && m.capacity >= 1.0 && Solo(l, m, b) && 0.0 <= b.tokens
    requires extra > 0.0 && b.tokens + Gain(m, REAP_AFTER + extra) < m.capacity
    requires m.refill > 0.0 || b.tokens < 1.0
    ensures Ordered(b.lastRefill, calls) && !Agree(l, map[0 := b], calls)
  {
    hide Gain, Allow, LedgerAllow;
    GainGrows(m, 0.0, 0.0);
    GainGrows(m, 0.0, REAP_AFTER + extra);
    var t := b.lastRefill + REAP_AFTER + extra;
    SoloCall(l, m, b, t);
    LedgerCall(m, b, t);
    calls := [Call(0, t)];
    var full, d := FullBucket(m, t), Charge(b, m, t);
    if Level(b, m, t) >= 1.0 {
      if m.refill == 0.0 {
        GainZero(m, t - b.lastRefill);
      }
      var rest := UnequalBucketsDiffer(Allow(l, Call(0, t)).0, m, Charge(full, m, t), d);
      calls := [Call(0, t)] + rest;
      assert calls[1..] == rest;
    }
  }

  lemma GainZero(m: Limits, elapsed: real)
    requires m.refill == 0.0
    ensures Gain(m, elapsed) == 0.0
  {
  }

  /** Forgetting idle sources is invisible to callers exactly when 300 seconds suffice to refill a bucket, or when no bucket
      ever holds a whole token. */
  lemma ReapingInvisibleIff(m: Limits)
    requires ValidLimits(m)
    ensures (forall calls :: Ordered(0.0, calls) ==> Agree(Limiter(map[], m, 0.0), map[], calls)) <==>
              m.capacity <= 300.0 * m.refill || m.capacity < 1.0
  {
    assert Gain(m, REAP_AFTER) == 300.0 * m.refill;
    hide Agree, Gain;
    var start := Limiter(map[], m, 0.0);
    if m.capacity <= Gain(m, REAP_AFTER) {
      forall calls | Ordered(0.0, calls)
        ensures Agree(start, map[], calls)
      {
        RunsAgree(start, map[], calls, 0.0);
      }
    } else if m.capacity < 1.0 {
      forall calls | Ordered(0.0, calls)
        ensures Agree(start, map[], calls)
      {
        NothingIsGranted(start, map[], calls);
      }
    } else {
      var calls := FirstCallThenShow(m);
      assert Ordered(0.0, calls) && !Agree(start, map[], calls);
    }
  }

  lemma {:induction false} NothingIsGranted(l: Limiter, ledger: Entries, calls: seq<Call>)
    requires l.limits.capacity < 1.0
    ensures Agree(l, ledger, calls)
    decreases |calls|
  {
    hide Gain;
    if calls != [] {
      var l' := Allow(l, calls[0]).0;
      NothingIsGranted(l', ledger, calls[1..]);
      NothingIsGranted(l', LedgerAllow(ledger, l.limits, calls[0]).0, calls[1..]);
    }
  }

  lemma FirstCallThenShow(m: Limits) returns (calls: seq<Call>)
    requires ValidLimits(m) && m.capacity >= 1.0 && Gain(m, REAP_AFTER) < m.capacity
    ensures Ordered(0.0, calls) && !Agree(Limiter(map[], m, 0.0), map[], calls)
  {
    hide Gain;
    GainGrows(m, 0.0, 0.0);
    var start := Limiter(map[], m, 0.0);
    var b := Charge(FullBucket(m, 0.0), m, 0.0);
    var after := Allow(start, Call(0, 0.0)).0;
    assert Solo(after, m, b);
    var rest := ReapingShows(after, m, b);
    calls := [Call(0, 0.0)] + rest;
    assert calls[1..] == rest;
  }

  // ---------- the rate bound ----------

  /** The tokens `src` could spend at `now`. */
  function Available(l: Limiter, src: nat, now: real): real {
    Level(BucketFor(l.entries, l.limits, Call(src, now)), l.limits, now)
  }

  ghost predicate Sound(l: Limiter, now: real) {
    forall s :: s in l.entries ==>
      0.0 <= l.entries[s].tokens <= l.limits.capacity && l.entries[s].lastSeen == l.entries[s].lastRefill <= now
  }

  function Grants(l: Limiter, calls: seq<Call>, src: nat): nat
    decreases |calls|
  {
    if calls == [] then 0
    else
      var (l', answer) := Allow(l, calls[0]);
      (if calls[0].src == src && answer.Granted? then 1 else 0) + Grants(l', calls[1..], src)
  }

  lemma AvailableLater(l: Limiter, src: nat, now: real, later: real)
    requires ValidLimits(l.limits) && Sound(l, now) && now <= later
    ensures Available(l, src, later) <= Available(l, src, now) + Gain(l.limits, later - now)
    ensures Available(l, src, later) <= l.limits.capacity
  {
    hide Gain;
    GainGrows(l.limits, 0.0, later - now);
    if src in l.entries {
      var b := l.entries[src];
      GainGrows(l.limits, now - b.lastRefill, later - b.lastRefill);
    }
  }

  lemma ReapingKeepsAvailable(l: Limiter, now: real, src: nat)
    requires ValidLimits(l.limits) && l.limits.capacity <= Gain(l.limits, REAP_AFTER) && Sound(l, now)
    ensures var r := l.(entries := Reaped(l.entries, now), lastReap := now);
            Sound(r, now) && Available(r, src, now) == Available(l, src, now)
  {
    hide Gain;
    if src in l.entries && src !in Reaped(l.entries, now) {
      GainGrows(l.limits, REAP_AFTER, now - l.entries[src].lastRefill);
    }
  }

  lemma CallSpends(l: Limiter, c: Call, src: nat)
    requires ValidLimits(l.limits) && l.limits.capacity <= Gain(l.limits, REAP_AFTER) && Sound(l, c.now)
    ensures var (l', answer) := Allow(l, c);
            && l'.limits == l.limits && Sound(l', c.now)
            && Available(l', src, c.now) + (if c.src == src && answer.Granted? then 1.0 else 0.0) == Available(l, src, c.now)
            && 0.0 <= Available(l', src, c.now)
  {
    hide Reaped, Gain, Sound, Available, Charge;
    ReapingKeepsAvailable(l, c.now, src);
    ReapingKeepsAvailable(l, c.now, c.src);
    var swept := l.(entries := Reaped(l.entries, c.now), lastReap := c.now);
    ReapingKeepsAvailable(swept, c.now, src);
    ReapingKeepsAvailable(swept, c.now, c.src);
    var h := Housekept(l, c);
    assert Sound(h, c.now) && Available(h, src, c.now) == Available(l, src, c.now);
    ChargeSpends(h, c, src);
    AvailableNonNegative(h, src, c.now);
  }

  lemma ChargeSpends(h: Limiter, c: Call, src: nat)
    requires ValidLimits(h.limits) && Sound(h, c.now)
    ensures var b := BucketFor(h.entries, h.limits, c);
            var l' := h.(entries := h.entries[c.src := Charge(b, h.limits, c.now)]);
            && Sound(l', c.now)
            && 0.0 <= Available(l', src, c.now)
            && Available(l', src, c.now) + (if c.src == src && Level(b, h.limits, c.now) >= 1.0 then 1.0 else 0.0)
               == Available(h, src, c.now)
  {
    hide Gain;
    GainGrows(h.limits, 0.0, 0.0);
    AvailableNonNegative(h, src, c.now);
    AvailableNonNegative(h, c.src, c.now);
  }

  /** Over any span, one source is granted at most its available tokens plus what the span refills. */
  lemma {:induction false} GrantsBounded(l: Limiter, calls: seq<Call>, src: nat, from: real, to: real)
    requires ValidLimits(l.limits) && l.limits.capacity <= Gain(l.limits, REAP_AFTER) && Sound(l, from)
    requires from <= to && Ordered(from, calls) && forall c :: c in calls ==> c.now <= to
    ensures Grants(l, calls, src) as real <= Available(l, src, from) + Gain(l.limits, to - from)
    ensures Grants(l, calls, src) as real <= l.limits.capacity + Gain(l.limits, to - from)
    decreases |calls|
  {
    hide Allow, Sound, Available, Gain;
    AvailableLater(l, src, from, from);
    GainGrows(l.limits, 0.0, to - from);
    if calls == [] {
      AvailableNonNegative(l, src, from);
    } else {
      var c := calls[0];
      assert c in calls;
      SoundLater(l, from, c.now);
      CallSpends(l, c, src);
      AvailableLater(l, src, from, c.now);
      var (l', answer) := Allow(l, c);
      GrantsBounded(l', calls[1..], src, c.now, to);
      GainGrows(l.limits, c.now - from, to - from);
    }
  }

  lemma SoundLater(l: Limiter, now: real, later: real)
    requires Sound(l, now) && now <= later
    ensures Sound(l, later)
  {
  }

  lemma AvailableNonNegative(l: Limiter, src: nat, now: real)
    requires ValidLimits(l.limits) && Sound(l, now)
    ensures Available(l, src, now) >= 0.0
  {
    hide Gain;
    GainGrows(l.limits, 0.0, 0.0);
    if src in l.entries {
      GainGrows(l.limits, 0.0, now - l.entries[src].lastRefill);
    }
  }

  // ---------- exactly when the bound holds ----------

  function After(l: Limiter, calls: seq<Call>): Limiter
    decreases |calls|
  {
    if calls == [] then l else After(Allow(l, calls[0]).0, calls[1..])
  }

  /** Whatever was called before, the calls of one span from `from` to `to` keep to the bound. */
  ghost predicate SpanOk(m: Limits, before: seq<Call>, calls: seq<Call>, src: nat, from: real, to: real) {
    Ordered(0.0, before) && (forall c :: c in before ==> c.now <= from) &&
    0.0 <= from <= to && Ordered(from, calls) && (forall c :: c in calls ==> c.now <= to) ==>
      Grants(After(Limiter(map[], m, 0.0), before), calls, src) as real <= m.capacity + Gain(m, to - from)
  }

  /** The bound `capacity + refill * T` holds of all sources, histories and spans exactly when 300 seconds suffice to refill a
      bucket, or when no bucket ever holds a whole token. */
  lemma GrantsBoundedIff(m: Limits)
    requires ValidLimits(m)
    ensures (forall before, calls, src, from, to :: SpanOk(m, before, calls, src, from, to)) <==>
              m.capacity <= 300.0 * m.refill || m.capacity < 1.0
  {
    hide SpanOk;
    if m.capacity <= 300.0 * m.refill || m.capacity < 1.0 {
      forall before, calls, src, from, to
        ensures SpanOk(m, before, calls, src, from, to)
      {
        SpanHolds(m, before, calls, src, from, to);
      }
    } else {
      var calls, to := Overdraws(m);
    }
  }

  lemma SpanHolds(m: Limits, before: seq<Call>, calls: seq<Call>, src: nat, from: real, to: real)
    requires ValidLimits(m) && (m.capacity <= 300.0 * m.refill || m.capacity < 1.0)
    ensures SpanOk(m, before, calls, src, from, to)
  {
    hide Gain, Allow, After, Grants, Sound, Available;
    var start := Limiter(map[], m, 0.0);
    if Ordered(0.0, before) && (forall c :: c in before ==> c.now <= from) &&
       0.0 <= from <= to && Ordered(from, calls) && (forall c :: c in calls ==> c.now <= to) {
      GainNonNegative(m, to - from);
      FullGain(m);
      if m.capacity < 1.0 {
        LimitsKept(start, before);
        NoGrants(After(start, before), calls, src);
      } else {
        StartSound(m);
        AfterSound(start, before, 0.0, from);
        GrantsBounded(After(start, before), calls, src, from, to);
      }
    }
  }

  lemma StartSound(m: Limits)
    ensures Sound(Limiter(map[], m, 0.0), 0.0)
  {
  }

  lemma FullGain(m: Limits)
    ensures Gain(m, REAP_AFTER) == 300.0 * m.refill
  {
  }

  lemma GainNonNegative(m: Limits, elapsed: real)
    requires ValidLimits(m) && elapsed >= 0.0
    ensures Gain(m, elapsed) >= 0.0
  {
  }

  lemma {:induction false} LimitsKept(l: Limiter, calls: seq<Call>)
    ensures After(l, calls).limits == l.limits
    decreases |calls|
  {
    if calls != [] {
      hide Charge, Level;
      LimitsKept(Allow(l, calls[0]).0, calls[1..]);
    }
  }

  lemma {:induction false} NoGrants(l: Limiter, calls: seq<Call>, src: nat)
    requires l.limits.capacity < 1.0
    ensures Grants(l, calls, src) == 0
    decreases |calls|
  {
    hide Gain;
    if calls != [] {
      NoGrants(Allow(l, calls[0]).0, calls[1..], src);
    }
  }

  lemma {:induction false} AfterSound(l: Limiter, calls: seq<Call>, from: real, to: real)
    requires ValidLimits(l.limits) && l.limits.capacity <= Gain(l.limits, REAP_AFTER) && Sound(l, from)
    requires from <= to && Ordered(from, calls) && forall c :: c in calls ==> c.now <= to
    ensures Sound(After(l, calls), to) && After(l, calls).limits == l.limits
    decreases |calls|
  {
    hide Allow, Sound, Gain;
    if calls == [] {
      SoundLater(l, from, to);
    } else {
      assert calls[0] in calls;
      SoundLater(l, from, calls[0].now);
      CallSpends(l, calls[0], 0);
      AfterSound(Allow(l, calls[0]).0, calls[1..], calls[0].now, to);
    }
  }

  // ---------- overdrawing a limiter that forgets too early ----------

  /** Calls of source 0 between `t0` and `t1` that are granted `n` times and lead from `l` to `l'`. */
  ghost predicate Plays(l: Limiter, calls: seq<Call>, n: nat, t0: real, t1: real, l': Limiter) {
    && t0 <= t1 && Ordered(t0, calls) && (forall c :: c in calls ==> c.now <= t1)
    && Grants(l, calls, 0) == n && After(l, calls) == l'
  }

  lemma {:induction false} PlaysThen(l: Limiter, a: seq<Call>, n: nat, t0: real, t1: real, l1: Limiter,
                                     b: seq<Call>, k: nat, t2: real, l2: Limiter)
    requires Plays(l, a, n, t0, t1, l1) && Plays(l1, b, k, t1, t2, l2)
    ensures Plays(l, a + b, n + k, t0, t2, l2)
    decreases |a|
  {
    hide Allow;
    if a == [] {
      assert a + b == b;
      if b != [] {
        assert b[0].now >= t1;
      }
    } else {
      var next, answer := Allow(l, a[0]).0, Allow(l, a[0]).1;
      assert a[0] in a;
      assert (a + b)[1..] == a[1..] + b;
      PlaysThen(next, a[1..], n - (if a[0].src == 0 && answer.Granted? then 1 else 0), a[0].now, t1, l1, b, k, t2, l2);
    }
  }

  lemma OneCall(l: Limiter, t0: real, t: real)
    requires Allow(l, Call(0, t)).1.Granted? && t0 <= t
    ensures Plays(l, [Call(0, t)], 1, t0, t, Allow(l, Call(0, t)).0)
  {
    hide Allow;
    var calls, l' := [Call(0, t)], Allow(l, Call(0, t)).0;
    assert calls[1..] == [] && Ordered(t, []);
    assert Grants(l, calls, 0) == 1 + Grants(l', [], 0) && After(l, calls) == After(l', []);
  }

  /** A call that finds no bucket for source 0, or reaps the one it had, is served from a full one. */
  ghost predicate Fresh(l: Limiter, m: Limits, t: real) {
    Allow(l, Call(0, t)).1 == Granted && Solo(Allow(l, Call(0, t)).0, m, Charge(FullBucket(m, t), m, t))
  }

  lemma StartIsFresh(m: Limits)
    requires ValidLimits(m) && m.capacity >= 1.0
    ensures Fresh(Limiter(map[], m, 0.0), m, 0.0)
  {
    hide Gain;
    GainGrows(m, 0.0, 0.0);
  }

  lemma IdleIsFresh(l: Limiter, m: Limits, b: Bucket, t: real)
    requires ValidLimits(m) && m.capacity >= 1.0 && Solo(l, m, b) && t - b.lastSeen > REAP_AFTER
    ensures Fresh(l, m, t)
  {
    hide Gain;
    GainGrows(m, 0.0, 0.0);
    SoloCall(l, m, b, t);
  }

  lemma {:induction false} Burst(l: Limiter, m: Limits, b: Bucket, n: nat) returns (calls: seq<Call>, l': Limiter)
    requires ValidLimits(m) && Solo(l, m, b) && n as real <= b.tokens <= m.capacity
    ensures Plays(l, calls, n, b.lastRefill, b.lastRefill, l')
    ensures Solo(l', m, Bucket(b.tokens - n as real, b.lastRefill, b.lastRefill))
    decreases n
  {
    hide Gain, Allow;
    calls, l' := [], l;
    if n > 0 {
      var t := b.lastRefill;
      GainGrows(m, 0.0, 0.0);
      SoloCall(l, m, b, t);
      var rest;
      rest, l' := Burst(Allow(l, Call(0, t)).0, m, Charge(b, m, t), n - 1);
      calls := [Call(0, t)] + rest;
      assert calls[1..] == rest;
    }
  }

  /** Spends all whole tokens of a full bucket at once. */
  lemma Drain(l: Limiter, m: Limits, t: real) returns (calls: seq<Call>, l': Limiter)
    requires ValidLimits(m) && m.capacity >= 1.0 && Fresh(l, m, t)
    ensures Plays(l, calls, m.capacity.Floor, t, t, l')
    ensures Solo(l', m, Bucket(m.capacity - m.capacity.Floor as real, t, t))
  {
    hide Gain, Allow;
    GainGrows(m, 0.0, 0.0);
    var next := Allow(l, Call(0, t)).0;
    var rest;
    rest, l' := Burst(next, m, Charge(FullBucket(m, t), m, t), m.capacity.Floor - 1);
    calls := [Call(0, t)] + rest;
    assert calls[1..] == rest;
  }

  /** Spends them, then waits for the fraction that is left to make up one more and spends that. */
  lemma DrainDry(l: Limiter, m: Limits, t: real, wait: real) returns (calls: seq<Call>, l': Limiter)
    requires ValidLimits(m) && m.capacity >= 1.0 && Fresh(l, m, t)
    requires 0.0 <= wait <= REAP_AFTER && Gain(m, wait) == 1.0 - (m.capacity - m.capacity.Floor as real)
    ensures Plays(l, calls, m.capacity.Floor + 1, t, t + wait, l')
    ensures Solo(l', m, Bucket(0.0, t + wait, t + wait))
  {
    hide Gain, Allow, Fresh;
    var first, mid := Drain(l, m, t);
    var b := Bucket(m.capacity - m.capacity.Floor as real, t, t);
    SoloCall(mid, m, b, t + wait);
    assert t + wait - t == wait;
    assert Level(b, m, t + wait) == 1.0;
    l' := Allow(mid, Call(0, t + wait)).0;
    var last := [Call(0, t + wait)];
    OneCall(mid, t, t + wait);
    PlaysThen(l, first, m.capacity.Floor, t, t, mid, last, 1, t + wait, l');
    calls := first + last;
  }

  /** Two rounds on full buckets, just over 300 seconds of idling apart, are granted more than the bound. */
  lemma Overdraws(m: Limits) returns (calls: seq<Call>, to: real)
    requires ValidLimits(m) && m.capacity >= 1.0 && m.capacity > 300.0 * m.refill
    ensures !SpanOk(m, [], calls, 0, 0.0, to)
  {
    hide Gain, Grants, Allow;
    var f := m.capacity - m.capacity.Floor as real;
    FullGain(m);
    if f == 0.0 || 1.0 - f > Gain(m, REAP_AFTER) {
      calls, to := OverdrawWhole(m);
    } else {
      calls, to := OverdrawDry(m);
    }
    assert to - 0.0 == to;
    assert After(Limiter(map[], m, 0.0), []) == Limiter(map[], m, 0.0);
  }

  lemma OverdrawWhole(m: Limits) returns (calls: seq<Call>, to: real)
    requires ValidLimits(m) && m.capacity >= 1.0 && m.capacity > Gain(m, REAP_AFTER)
    requires var f := m.capacity - m.capacity.Floor as real; f == 0.0 || 1.0 - f > Gain(m, REAP_AFTER)
    ensures to >= 0.0 && Ordered(0.0, calls) && (forall c :: c in calls ==> c.now <= to)
    ensures Grants(Limiter(map[], m, 0.0), calls, 0) as real > m.capacity + Gain(m, to)
  {
    hide Gain, Allow, Fresh;
    var start := Limiter(map[], m, 0.0);
    var k, f := m.capacity.Floor, m.capacity - m.capacity.Floor as real;
    StartIsFresh(m);
    var first, mid := Drain(start, m, 0.0);
    var extra := LittleMore(m, 2.0 * k as real - m.capacity - Gain(m, REAP_AFTER));
    to := REAP_AFTER + extra;
    IdleIsFresh(mid, m, Bucket(f, 0.0, 0.0), to);
    var second, end := Drain(mid, m, to);
    LaterStart(mid, second, k, 0.0, to, to, end);
    PlaysThen(start, first, k, 0.0, 0.0, mid, second, k, to, end);
    calls := first + second;
  }

  lemma OverdrawDry(m: Limits) returns (calls: seq<Call>, to: real)
    requires ValidLimits(m) && m.capacity >= 1.0 && m.capacity > Gain(m, REAP_AFTER)
    requires var f := m.capacity - m.capacity.Floor as real; f > 0.0 && 1.0 - f <= Gain(m, REAP_AFTER)
    ensures to >= 0.0 && Ordered(0.0, calls) && (forall c :: c in calls ==> c.now <= to)
    ensures Grants(Limiter(map[], m, 0.0), calls, 0) as real > m.capacity + Gain(m, to)
  {
    hide Gain, Allow, Fresh, Plays;
    var start := Limiter(map[], m, 0.0);
    var k, f := m.capacity.Floor, m.capacity - m.capacity.Floor as real;
    WaitIsShort(m, f);
    var wait := (1.0 - f) / m.refill;
    GainOf(m, 1.0 - f);
    StartIsFresh(m);
    var first, mid := DrainDry(start, m, 0.0, wait);
    var extra := LittleMore(m, m.capacity - Gain(m, REAP_AFTER));
    var again := wait + REAP_AFTER + extra;
    IdleIsFresh(mid, m, Bucket(0.0, wait, wait), again);
    var second, end := DrainDry(mid, m, again, wait);
    to := again + wait;
    LaterStart(mid, second, k + 1, wait, again, to, end);
    PlaysThen(start, first, k + 1, 0.0, wait, mid, second, k + 1, to, end);
    calls := first + second;
    PlaysMeans(start, calls, k + 1 + (k + 1), 0.0, to, end);
    GainGrows(m, wait, to);
    GainGrows(m, REAP_AFTER + extra, to - wait);
  }

  lemma LaterStart(l: Limiter, calls: seq<Call>, n: nat, t0: real, t: real, t1: real, l': Limiter)
    requires Plays(l, calls, n, t, t1, l') && t0 <= t
    ensures Plays(l, calls, n, t0, t1, l')
  {
  }

  lemma PlaysMeans(l: Limiter, calls: seq<Call>, n: nat, t0: real, t1: real, l': Limiter)
    requires Plays(l, calls, n, t0, t1, l')
    ensures t0 <= t1 && Ordered(t0, calls) && (forall c :: c in calls ==> c.now <= t1) && Grants(l, calls, 0) == n
  {
  }
}
