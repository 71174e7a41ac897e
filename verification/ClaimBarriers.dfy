/** What leave tombstones and fight-suppress entries hold back, over whole runs of gossip events. */
module ClaimBarriers {
  import opened Wrappers
  import opened Text
  import opened VipFight
  import opened ClaimGossip

  datatype Event =
    | Merge(now: nat, claim: Claim)
    | Leave(now: nat, node: string, vip: string, epoch: nat, ttl: nat)
    | Fight(now: nat, node: string, vip: string, epoch: nat, ttl: nat)
    | PruneLeaves(now: nat)
    | PruneFights(now: nat)
    | Settle(now: nat)
    | DropVip(now: nat, vip: string)

  function Step(g: Gossip, e: Event): Gossip {
    match e
    case Merge(now, claim) => MergeClaim(g, claim, now).0
    case Leave(now, node, vip, epoch, ttl) => g.(tombs := InstallTombstone(g.tombs, node, vip, epoch, now, ttl))
    case Fight(now, node, vip, epoch, ttl) => g.(suppress := InstallSuppress(g.suppress, node, vip, epoch, now, ttl))
    case PruneLeaves(now) => g.(tombs := PruneTombstones(g.tombs, now))
    case PruneFights(now) => g.(suppress := PruneSuppress(g.suppress, now))
    case Settle(_) => g.(claims := Settled(g.claims))
    case DropVip(_, vip) => g.(claims := map n | n in g.claims && g.claims[n].vip != vip :: g.claims[n])
  }

  function Run(g: Gossip, es: seq<Event>): Gossip
    decreases |es|
  {
    if es == [] then g else Run(Step(g, es[0]), es[1..])
  }

  // ---------- leave tombstones ----------

  /** A tombstone of `node` at `epoch` or later that lasts until `until`. */
  predicate Guarded(g: Gossip, node: string, epoch: nat, until: nat) {
    node in g.tombs && g.tombs[node].epoch >= epoch && g.tombs[node].expiresAt >= until
  }

  /** The event happens while the tombstone lasts and does not replace it by a weaker one. */
  predicate Upholds(e: Event, node: string, epoch: nat, until: nat) {
    e.now < until && (e.Leave? && e.node == node && Valid(e.node, e.vip) ==> e.epoch >= epoch && e.now + e.ttl >= until)
  }

  lemma StepGuarded(g: Gossip, e: Event, node: string, epoch: nat, until: nat)
    requires Guarded(g, node, epoch, until) && Upholds(e, node, epoch, until)
    ensures Guarded(Step(g, e), node, epoch, until)
    ensures var g' := Step(g, e);
            node in g'.claims ==> g'.claims[node].epoch > epoch || (node in g.claims && g'.claims[node] == g.claims[node])
    ensures e.Merge? && e.claim.node == node && e.claim.epoch <= epoch ==>
              MergeClaim(g, e.claim, e.now) == (g, if Valid(node, e.claim.vip) then BlockedByTombstone else Rejected)
  {
    hide Valid, Wins;
  }

  /** While a leave tombstone lasts, no run of events brings back a claim at its epoch or below. */
  lemma {:induction false} TombstoneHolds(g: Gossip, es: seq<Event>, node: string, epoch: nat, until: nat)
    requires Guarded(g, node, epoch, until) && forall e :: e in es ==> Upholds(e, node, epoch, until)
    ensures Guarded(Run(g, es), node, epoch, until)
    ensures var g' := Run(g, es);
            node in g'.claims ==> g'.claims[node].epoch > epoch || (node in g.claims && g'.claims[node] == g.claims[node])
    decreases |es|
  {
    if es != [] {
      hide Step, Upholds, Guarded;
      assert es[0] in es;
      StepGuarded(g, es[0], node, epoch, until);
      TombstoneHolds(Step(g, es[0]), es[1..], node, epoch, until);
    }
  }

  // ---------- fight suppression ----------

  predicate Arrives(e: Event, node: string, vip: string, epoch: nat) {
    e.Merge? && e.claim.node == node && e.claim.vip == vip && e.claim.epoch == epoch
  }

  predicate Ordered(from: nat, es: seq<Event>)
    decreases |es|
  {
    es == [] || (from <= es[0].now && Ordered(es[0].now, es[1..]))
  }

  /** The time until which the triple is suppressed after the run: every arrival that finds it suppressed, and that no
      tombstone caught first, pushes it 30 seconds ahead. */
  function SuppressedUntil(g: Gossip, node: string, vip: string, epoch: nat, until: nat, es: seq<Event>): nat
    decreases |es|
  {
    if es == [] then until
    else
      var e := es[0];
      var slides := Arrives(e, node, vip, epoch) && !TombstoneBlocks(g.tombs, node, epoch, e.now) && e.now < until;
      SuppressedUntil(Step(g, e), node, vip, epoch, if slides then e.now + FIGHT_SUPPRESS_TTL else until, es[1..])
  }

  /** From `from` on, the entry blocks the triple exactly until `until`. */
  ghost predicate BlocksUntil(g: Gossip, node: string, vip: string, epoch: nat, from: nat, until: nat) {
    forall t: nat :: t >= from ==> (SuppressBlocks(g.suppress, node, vip, epoch, t) <==> t < until)
  }

  lemma StepBlocks(g: Gossip, e: Event, node: string, vip: string, epoch: nat, from: nat, until: nat)
    requires Valid(node, vip) && BlocksUntil(g, node, vip, epoch, from, until) && from <= e.now
    requires !(e.Fight? && e.node == node)
    ensures var slides := Arrives(e, node, vip, epoch) && !TombstoneBlocks(g.tombs, node, epoch, e.now) && e.now < until;
            BlocksUntil(Step(g, e), node, vip, epoch, e.now, if slides then e.now + FIGHT_SUPPRESS_TTL else until)
  {
    hide Valid, Wins, Absorb;
    var slides := Arrives(e, node, vip, epoch) && !TombstoneBlocks(g.tombs, node, epoch, e.now) && e.now < until;
    assert SuppressBlocks(g.suppress, node, vip, epoch, e.now) <==> e.now < until;
    forall t: nat | t >= e.now
      ensures SuppressBlocks(Step(g, e).suppress, node, vip, epoch, t) <==>
                t < if slides then e.now + FIGHT_SUPPRESS_TTL else until
    {
      assert SuppressBlocks(g.suppress, node, vip, epoch, t) <==> t < until;
    }
  }

  lemma {:induction false} RunBlocks(g: Gossip, es: seq<Event>, node: string, vip: string, epoch: nat, from: nat, until: nat, last: nat)
    requires Valid(node, vip) && BlocksUntil(g, node, vip, epoch, from, until) && Ordered(from, es)
    requires forall e :: e in es ==> e.now <= last && !(e.Fight? && e.node == node)
    requires from <= last
    ensures BlocksUntil(Run(g, es), node, vip, epoch, last, SuppressedUntil(g, node, vip, epoch, until, es))
    decreases |es|
  {
    if es != [] {
      hide Step, BlocksUntil, Arrives, Valid;
      assert es[0] in es;
      StepBlocks(g, es[0], node, vip, epoch, from, until);
      var slides := Arrives(es[0], node, vip, epoch) && !TombstoneBlocks(g.tombs, node, epoch, es[0].now) && es[0].now < until;
      RunBlocks(Step(g, es[0]), es[1..], node, vip, epoch, es[0].now, if slides then es[0].now + FIGHT_SUPPRESS_TTL else until, last);
    }
  }

  /** After any run in which nothing else is installed for the node, the losing claim is refused exactly while its entry has
      been kept alive or a tombstone stands in its way. */
  lemma RefusedExactlyWhileKeptAlive(g: Gossip, es: seq<Event>, claim: Claim, from: nat, until: nat, now: nat)
    requires Valid(claim.node, claim.vip) && BlocksUntil(g, claim.node, claim.vip, claim.epoch, from, until) && Ordered(from, es)
    requires from <= now && forall e :: e in es ==> e.now <= now && !(e.Fight? && e.node == claim.node)
    ensures var g' := Run(g, es);
            var outcome := MergeClaim(g', claim, now).1;
            && (outcome.BlockedByTombstone? <==> TombstoneBlocks(g'.tombs, claim.node, claim.epoch, now))
            && (outcome.BlockedByTombstone? || outcome.BlockedByFight? <==>
                  TombstoneBlocks(g'.tombs, claim.node, claim.epoch, now) ||
                  now < SuppressedUntil(g, claim.node, claim.vip, claim.epoch, until, es))
  {
    hide Valid, Run, SuppressedUntil;
    RunBlocks(g, es, claim.node, claim.vip, claim.epoch, from, until, now);
    assert SuppressBlocks(Run(g, es).suppress, claim.node, claim.vip, claim.epoch, now) <==>
             now < SuppressedUntil(g, claim.node, claim.vip, claim.epoch, until, es);
  }

  /** Arrivals keep coming before the entry runs out, and no tombstone catches them. */
  predicate KeepsArriving(g: Gossip, node: string, vip: string, epoch: nat, until: nat, es: seq<Event>)
    decreases |es|
  {
    es == [] ||
    (var e := es[0];
     var arrives := Arrives(e, node, vip, epoch);
     && (arrives ==> e.now < until && !TombstoneBlocks(g.tombs, node, epoch, e.now))
     && KeepsArriving(Step(g, e), node, vip, epoch, if arrives then e.now + FIGHT_SUPPRESS_TTL else until, es[1..]))
  }

  /** A losing claim that keeps arriving less than 30 seconds apart never gets in, however prunes are interleaved. */
  lemma {:induction false} LoserStaysOut(g: Gossip, es: seq<Event>, node: string, vip: string, epoch: nat, from: nat, until: nat)
    requires Valid(node, vip) && BlocksUntil(g, node, vip, epoch, from, until) && Ordered(from, es)
    requires forall e :: e in es ==> !(e.Fight? && e.node == node)
    requires KeepsArriving(g, node, vip, epoch, until, es)
    requires !(node in g.claims && g.claims[node].vip == vip && g.claims[node].epoch == epoch)
    ensures var g' := Run(g, es);
            !(node in g'.claims && g'.claims[node].vip == vip && g'.claims[node].epoch == epoch)
    decreases |es|
  {
    if es != [] {
      var e := es[0];
      assert e in es;
      StepBlocks(g, e, node, vip, epoch, from, until);
      StepKeepsOut(g, e, node, vip, epoch, from, until);
      hide Step, BlocksUntil, Arrives, Valid;
      LoserStaysOut(Step(g, e), es[1..], node, vip, epoch, e.now,
                    if Arrives(e, node, vip, epoch) then e.now + FIGHT_SUPPRESS_TTL else until);
    }
  }

  lemma StepKeepsOut(g: Gossip, e: Event, node: string, vip: string, epoch: nat, from: nat, until: nat)
    requires BlocksUntil(g, node, vip, epoch, from, until) && from <= e.now && Valid(node, vip)
    requires Arrives(e, node, vip, epoch) ==> e.now < until && !TombstoneBlocks(g.tombs, node, epoch, e.now)
    requires !(node in g.claims && g.claims[node].vip == vip && g.claims[node].epoch == epoch)
    ensures var g' := Step(g, e);
            !(node in g'.claims && g'.claims[node].vip == vip && g'.claims[node].epoch == epoch)
  {
    hide Valid, Wins;
    assert SuppressBlocks(g.suppress, node, vip, epoch, e.now) <==> e.now < until;
  }

  /** The claim arriving at the given times. */
  function Arrivals(claim: Claim, times: seq<nat>): seq<Event>
    decreases |times|
  {
    if times == [] then [] else [Merge(times[0], claim)] + Arrivals(claim, times[1..])
  }

  lemma {:induction false} CaughtArrivals(g: Gossip, claim: Claim, times: seq<nat>)
    requires Valid(claim.node, claim.vip)
    requires forall t :: t in times ==> TombstoneBlocks(g.tombs, claim.node, claim.epoch, t)
    ensures Run(g, Arrivals(claim, times)) == g
    decreases |times|
  {
    hide Valid, TombstoneBlocks;
    if times != [] {
      assert times[0] in times;
      var es := Arrivals(claim, times);
      assert es[1..] == Arrivals(claim, times[1..]);
      CaughtArrivals(g, claim, times[1..]);
    }
  }

  lemma {:induction false} RunThen(g: Gossip, es: seq<Event>, more: seq<Event>)
    ensures Run(g, es + more) == Run(Run(g, es), more)
    decreases |es|
  {
    if es == [] {
      assert es + more == more;
    } else {
      assert (es + more)[1..] == es[1..] + more;
      RunThen(Step(g, es[0]), es[1..], more);
    }
  }

  /** A tombstone stands in the way of sliding: a node that lost a fight and then leaves has its claim caught by the tombstone,
      and such arrivals do not renew the suppress entry.  However often the claim keeps arriving, it gets in as soon as the
      tombstone runs out. */
  lemma TombstoneStarvesSuppression(claim: Claim, times: seq<nat>)
    requires Valid(claim.node, claim.vip) && forall t :: t in times ==> t < LEAVE_TOMBSTONE_TTL
    ensures var n, v, e := claim.node, claim.vip, claim.epoch;
            var lost := [Fight(0, n, v, e, FIGHT_SUPPRESS_TTL), Leave(0, n, v, e, LEAVE_TOMBSTONE_TTL)];
            var g := Run(Gossip(map[], map[], map[]), lost);
            && BlocksUntil(g, n, v, e, 0, FIGHT_SUPPRESS_TTL)
            && (forall t :: t in times ==> MergeClaim(g, claim, t) == (g, BlockedByTombstone))
            && Run(Gossip(map[], map[], map[]), lost + Arrivals(claim, times)) == g
            && MergeClaim(g, claim, LEAVE_TOMBSTONE_TTL).1 == Accepted
  {
    hide Valid;
    var n, v, e := claim.node, claim.vip, claim.epoch;
    var empty := Gossip(map[], map[], map[]);
    var fight, leave := Fight(0, n, v, e, FIGHT_SUPPRESS_TTL), Leave(0, n, v, e, LEAVE_TOMBSTONE_TTL);
    assert [fight, leave][1..] == [leave] && [leave][1..] == [];
    var g := Run(empty, [fight, leave]);
    assert g == Run(Step(empty, fight), [leave]) == Run(Step(Step(empty, fight), leave), []);
    assert forall t: nat :: t < LEAVE_TOMBSTONE_TTL ==> TombstoneBlocks(g.tombs, n, e, t);
    RunThen(empty, [fight, leave], Arrivals(claim, times));
    CaughtArrivals(g, claim, times);
  }

  // ---------- pruning is only housekeeping ----------

  predicate IsPrune(e: Event) {
    e.PruneLeaves? || e.PruneFights?
  }

  function WithoutPrunes(es: seq<Event>): seq<Event>
    decreases |es|
  {
    if es == [] then []
    else if IsPrune(es[0]) then WithoutPrunes(es[1..])
    else [es[0]] + WithoutPrunes(es[1..])
  }

  /** The same claims, and the same barriers but for expired ones. */
  ghost predicate Alike(g: Gossip, h: Gossip, now: nat) {
    && g.claims == h.claims
    && (forall n :: (n in g.tombs && g.tombs[n].expiresAt > now) || (n in h.tombs && h.tombs[n].expiresAt > now) ==>
          n in g.tombs && n in h.tombs && g.tombs[n] == h.tombs[n])
    && (forall n :: (n in g.suppress && g.suppress[n].expiresAt > now) || (n in h.suppress && h.suppress[n].expiresAt > now) ==>
          n in g.suppress && n in h.suppress && g.suppress[n] == h.suppress[n])
  }

  lemma AlikeLater(g: Gossip, h: Gossip, now: nat, later: nat)
    requires Alike(g, h, now) && now <= later
    ensures Alike(g, h, later)
  {
  }

  lemma MergeAlike(g: Gossip, h: Gossip, c: Claim, now: nat)
    requires Alike(g, h, now)
    ensures Alike(MergeClaim(g, c, now).0, MergeClaim(h, c, now).0, now)
  {
    hide Valid, Absorb;
    assert TombstoneBlocks(g.tombs, c.node, c.epoch, now) <==> TombstoneBlocks(h.tombs, c.node, c.epoch, now);
    assert SuppressBlocks(g.suppress, c.node, c.vip, c.epoch, now) <==> SuppressBlocks(h.suppress, c.node, c.vip, c.epoch, now);
  }

  lemma PruneAlike(g: Gossip, h: Gossip, now: nat)
    requires Alike(g, h, now)
    ensures Alike(g.(tombs := PruneTombstones(g.tombs, now)), h, now)
    ensures Alike(g.(suppress := PruneSuppress(g.suppress, now)), h, now)
  {
  }

  lemma InstallAlike(g: Gossip, h: Gossip, node: string, vip: string, epoch: nat, now: nat, ttl: nat)
    requires Alike(g, h, now)
    ensures Alike(g.(tombs := InstallTombstone(g.tombs, node, vip, epoch, now, ttl)),
                  h.(tombs := InstallTombstone(h.tombs, node, vip, epoch, now, ttl)), now)
    ensures Alike(g.(suppress := InstallSuppress(g.suppress, node, vip, epoch, now, ttl)),
                  h.(suppress := InstallSuppress(h.suppress, node, vip, epoch, now, ttl)), now)
  {
    hide Valid;
  }

  lemma SameClaims(g: Gossip, h: Gossip, now: nat)
    requires Alike(g, h, now)
    ensures g.claims == h.claims
    ensures forall m :: Alike(g.(claims := m), h.(claims := m), now)
  {
  }

  lemma StepAlike(g: Gossip, h: Gossip, e: Event, now: nat)
    requires Alike(g, h, now) && now <= e.now
    ensures Alike(Step(g, e), if IsPrune(e) then h else Step(h, e), e.now)
  {
    hide Alike, MergeClaim, InstallTombstone, InstallSuppress, PruneTombstones, PruneSuppress, Settled;
    AlikeLater(g, h, now, e.now);
    SameClaims(g, h, e.now);
    match e
    case Merge(at, claim) => MergeAlike(g, h, claim, at);
    case Leave(at, node, vip, epoch, ttl) => InstallAlike(g, h, node, vip, epoch, at, ttl);
    case Fight(at, node, vip, epoch, ttl) => InstallAlike(g, h, node, vip, epoch, at, ttl);
    case PruneLeaves(at) => PruneAlike(g, h, at);
    case PruneFights(at) => PruneAlike(g, h, at);
    case Settle(_) =>
    case DropVip(_, _) =>
  }

  /** Over any run, leaving all prunes out changes no claim and no barrier that has not expired. */
  lemma {:induction false} PruningIsInvisible(g: Gossip, h: Gossip, es: seq<Event>, now: nat) returns (end: nat)
    requires Alike(g, h, now) && Ordered(now, es)
    ensures now <= end && Alike(Run(g, es), Run(h, WithoutPrunes(es)), end)
    ensures end == if es == [] then now else es[|es| - 1].now
    decreases |es|
  {
    hide Alike, Step;
    end := now;
    if es != [] {
      StepAlike(g, h, es[0], now);
      if IsPrune(es[0]) {
        end := PruningIsInvisible(Step(g, es[0]), h, es[1..], es[0].now);
      } else {
        end := PruningIsInvisible(Step(g, es[0]), Step(h, es[0]), es[1..], es[0].now);
        assert ([es[0]] + WithoutPrunes(es[1..]))[1..] == WithoutPrunes(es[1..]);
      }
    }
  }
}
