/** Gossip converges: what a node believes after merging a set of claims does not depend on the order or on
    repetitions, exactly when the claims do not contradict each other. */
module ClaimConvergence {
  import opened Wrappers
  import opened Text
  import opened VipFight
  import opened ClaimGossip

  datatype Triple = Triple(node: string, vip: string, epoch: nat)

  datatype Arrival = Arrival(claim: Claim, now: nat)

  const EMPTY := Gossip(map[], map[], map[])

  function TripleOf(c: Claim): Triple {
    Triple(c.node, c.vip, c.epoch)
  }

  /** The valid claims among the arrivals, without their endpoint hints. */
  function Triples(arrivals: seq<Arrival>): set<Triple> {
    set a | a in arrivals && Valid(a.claim.node, a.claim.vip) :: TripleOf(a.claim)
  }

  /** All arrivals merged in order, without tombstones or suppress entries. */
  function Merged(arrivals: seq<Arrival>): Gossip {
    if arrivals == [] then EMPTY
    else MergeClaim(Merged(arrivals[..|arrivals| - 1]), arrivals[|arrivals| - 1].claim, arrivals[|arrivals| - 1].now).0
  }

  /** Who claims which VIP at which epoch. */
  function View(m: ClaimMap): map<string, (string, nat)> {
    map n | n in m :: (m[n].vip, m[n].epoch)
  }

  predicate IsTop(ts: set<Triple>, t: Triple) {
    t in ts && forall u :: u in ts && u.node == t.node ==> u.epoch <= t.epoch
  }

  /** No node contradicts itself in its newest epoch. */
  ghost predicate Consistent(ts: set<Triple>) {
    forall t, u :: IsTop(ts, t) && IsTop(ts, u) && t.node == u.node ==> t.vip == u.vip
  }

  lemma TriplesAppend(arrivals: seq<Arrival>, a: Arrival)
    ensures Triples(arrivals + [a]) ==
              Triples(arrivals) + (if Valid(a.claim.node, a.claim.vip) then {TripleOf(a.claim)} else {})
  {
    hide Valid;
    var all := arrivals + [a];
    assert forall x :: x in all <==> x in arrivals || x == a;
    forall t | t in Triples(arrivals)
      ensures t in Triples(all)
    {
      var x :| x in arrivals && Valid(x.claim.node, x.claim.vip) && TripleOf(x.claim) == t;
      assert x in all;
    }
    if Valid(a.claim.node, a.claim.vip) {
      assert a in all;
    }
  }

  /** The map holds exactly one newest claim per node that claimed anything. */
  ghost predicate HoldsTops(m: ClaimMap, ts: set<Triple>) {
    && (forall n :: n in m ==> IsTop(ts, Triple(n, m[n].vip, m[n].epoch)))
    && (forall t :: t in ts ==> t.node in m)
  }

  lemma AbsorbHoldsTops(m: ClaimMap, ts: set<Triple>, c: Claim)
    requires HoldsTops(m, ts)
    ensures HoldsTops(Absorb(m, c).0, ts + {TripleOf(c)})
  {
    var m' := Absorb(m, c).0;
    forall n | n in m'
      ensures IsTop(ts + {TripleOf(c)}, Triple(n, m'[n].vip, m'[n].epoch))
    {
      if n in m {
        assert IsTop(ts, Triple(n, m[n].vip, m[n].epoch));
      }
    }
  }

  lemma {:induction false} MergedHoldsTops(arrivals: seq<Arrival>)
    ensures var g := Merged(arrivals);
            g.tombs == map[] && g.suppress == map[] && HoldsTops(g.claims, Triples(arrivals))
  {
    hide Valid, HoldsTops, Absorb;
    if arrivals == [] {
      EmptyHoldsTops();
    } else {
      var init, last := arrivals[..|arrivals| - 1], arrivals[|arrivals| - 1];
      MergedHoldsTops(init);
      TriplesAppend(init, last);
      assert init + [last] == arrivals;
      AbsorbHoldsTops(Merged(init).claims, Triples(init), last.claim);
      assert Triples(init) + {} == Triples(init);
    }
  }

  lemma EmptyHoldsTops()
    ensures HoldsTops(map[], Triples([]))
  {
  }

  lemma TopsDetermineView(m: ClaimMap, k: ClaimMap, ts: set<Triple>)
    requires HoldsTops(m, ts) && HoldsTops(k, ts) && Consistent(ts)
    ensures View(m) == View(k)
  {
    forall n | n in m
      ensures n in k && k[n].vip == m[n].vip && k[n].epoch == m[n].epoch
    {
      assert IsTop(ts, Triple(n, m[n].vip, m[n].epoch));
      assert n in k && IsTop(ts, Triple(n, k[n].vip, k[n].epoch));
    }
    forall n | n in k
      ensures n in m
    {
      assert IsTop(ts, Triple(n, k[n].vip, k[n].epoch));
    }
  }

  /** The first claim of a node in its newest epoch stays. */
  lemma {:induction false} FirstTopStays(first: Arrival, rest: seq<Arrival>)
    requires Valid(first.claim.node, first.claim.vip) && IsTop(Triples([first] + rest), TripleOf(first.claim))
    ensures var m := Merged([first] + rest).claims;
            first.claim.node in m && m[first.claim.node].vip == first.claim.vip && m[first.claim.node].epoch == first.claim.epoch
    decreases |rest|
  {
    hide Valid, Triples, IsTop;
    var n := first.claim.node;
    if rest == [] {
      assert [first] + rest == [first] && [first][..0] == [];
      assert Merged([first]) == MergeClaim(Merged([]), first.claim, first.now).0;
    } else {
      var all := [first] + rest;
      var init, last := [first] + rest[..|rest| - 1], rest[|rest| - 1];
      assert all[..|all| - 1] == init && all[|all| - 1] == last && init + [last] == all;
      TriplesAppend(init, last);
      TopOfPart(Triples(all), Triples(init), first, rest[..|rest| - 1]);
      FirstTopStays(first, rest[..|rest| - 1]);
      MergedHoldsTops(init);
      if Valid(last.claim.node, last.claim.vip) && last.claim.node == n {
        TopBounds(Triples(all), TripleOf(first.claim), TripleOf(last.claim));
      }
    }
  }

  lemma TopOfPart(ts: set<Triple>, part: set<Triple>, first: Arrival, rest: seq<Arrival>)
    requires Valid(first.claim.node, first.claim.vip) && IsTop(ts, TripleOf(first.claim))
    requires part == Triples([first] + rest) && part <= ts
    ensures IsTop(part, TripleOf(first.claim))
  {
    hide Valid;
    assert first in [first] + rest;
  }

  lemma TopBounds(ts: set<Triple>, top: Triple, t: Triple)
    requires IsTop(ts, top) && t in ts && t.node == top.node
    ensures t.epoch <= top.epoch
  {
  }

  /** Merging is insensitive to order and repetition exactly when no node contradicts itself in its newest epoch. */
  lemma MergeOrderIrrelevantIff(arrivals: seq<Arrival>)
    ensures (forall others :: Triples(others) == Triples(arrivals) ==> View(Merged(others).claims) == View(Merged(arrivals).claims))
            <==> Consistent(Triples(arrivals))
  {
    hide Valid, HoldsTops, Merged;
    var ts := Triples(arrivals);
    MergedHoldsTops(arrivals);
    if Consistent(ts) {
      forall others | Triples(others) == ts
        ensures View(Merged(others).claims) == View(Merged(arrivals).claims)
      {
        MergedHoldsTops(others);
        TopsDetermineView(Merged(others).claims, Merged(arrivals).claims, ts);
      }
    } else {
      var t, u :| IsTop(ts, t) && IsTop(ts, u) && t.node == u.node && t.vip != u.vip;
      var x :| x in arrivals && Valid(x.claim.node, x.claim.vip) && TripleOf(x.claim) == t;
      var y :| y in arrivals && Valid(y.claim.node, y.claim.vip) && TripleOf(y.claim) == u;
      Prepend(arrivals, x);
      Prepend(arrivals, y);
      FirstTopStays(x, arrivals);
      FirstTopStays(y, arrivals);
      assert View(Merged([x] + arrivals).claims)[t.node] != View(Merged([y] + arrivals).claims)[t.node];
    }
  }

  lemma Prepend(arrivals: seq<Arrival>, x: Arrival)
    requires x in arrivals
    ensures Triples([x] + arrivals) == Triples(arrivals)
  {
    assert forall a :: a in [x] + arrivals <==> a in arrivals;
  }

  lemma SettledView(m: ClaimMap, k: ClaimMap)
    requires View(m) == View(k)
    ensures View(Settled(m)) == View(Settled(k))
  {
    hide Less;
    assert View(m).Keys == m.Keys && View(k).Keys == k.Keys;
    forall n | n in m
      ensures n in k && k[n].vip == m[n].vip && k[n].epoch == m[n].epoch
    {
      assert View(m)[n] == View(k)[n];
    }
    assert forall n :: n in m ==> (Wins(m, n) <==> Wins(k, n));
  }

  /** Two members that heard the same claims, in any order and any number of times, settle on the same owners: pairwise
      distinct VIPs, each with its smallest claimant, none lost. */
  lemma GossipConverges(arrivals: seq<Arrival>, others: seq<Arrival>)
    requires Triples(arrivals) == Triples(others) && Consistent(Triples(arrivals))
    ensures View(Settled(Merged(arrivals).claims)) == View(Settled(Merged(others).claims))
    ensures WellSettled(Merged(arrivals).claims, Settled(Merged(arrivals).claims))
  {
    hide HoldsTops, Settled, Merged, Triples, View, Consistent, WellSettled;
    MergedHoldsTops(arrivals);
    MergedHoldsTops(others);
    TopsDetermineView(Merged(arrivals).claims, Merged(others).claims, Triples(arrivals));
    SettledView(Merged(arrivals).claims, Merged(others).claims);
    SettlingIsFinal(Merged(arrivals).claims);
  }
}
