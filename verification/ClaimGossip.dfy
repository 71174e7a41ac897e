/** Claim gossip (src/net/claim_gossip.rs): per-node last-writer-wins by epoch, settling of duplicate VIPs, leave
    tombstones and sliding fight-suppress entries.  Times are in milliseconds. */
module ClaimGossip {
  import opened Wrappers
  import opened Text
  import opened VipFight

  const LEAVE_TOMBSTONE_TTL: nat := 300_000
  const FIGHT_SUPPRESS_TTL: nat := 30_000

  datatype Claim = Claim(node: string, vip: string, epoch: nat, hints: seq<string>)

  datatype Tombstone = Tombstone(vip: string, epoch: nat, expiresAt: nat)

  datatype Suppress = Suppress(vip: string, epoch: nat, expiresAt: nat)

  type ClaimMap = map<string, Claim>

  datatype Outcome = Accepted | IgnoredStale | BlockedByTombstone | BlockedByFight | Rejected

  datatype Gossip = Gossip(claims: ClaimMap, tombs: map<string, Tombstone>, suppress: map<string, Suppress>)

  predicate Valid(node: string, vip: string) {
    node != "" && ClaimVipValid(vip)
  }

  predicate TombstoneBlocks(tombs: map<string, Tombstone>, node: string, epoch: nat, now: nat) {
    node in tombs && tombs[node].expiresAt > now && epoch <= tombs[node].epoch
  }

  predicate SuppressBlocks(suppress: map<string, Suppress>, node: string, vip: string, epoch: nat, now: nat) {
    node in suppress && suppress[node].expiresAt > now && suppress[node].vip == vip && suppress[node].epoch == epoch
  }

  function InstallSuppress(suppress: map<string, Suppress>, node: string, vip: string, epoch: nat, now: nat, ttl: nat)
    : map<string, Suppress>
  {
    if Valid(node, vip) then suppress[node := Suppress(vip, epoch, now + ttl)] else suppress
  }

  function InstallTombstone(tombs: map<string, Tombstone>, node: string, vip: string, epoch: nat, now: nat, ttl: nat)
    : map<string, Tombstone>
  {
    if Valid(node, vip) then tombs[node := Tombstone(vip, epoch, now + ttl)] else tombs
  }

  function PruneTombstones(tombs: map<string, Tombstone>, now: nat): map<string, Tombstone> {
    map n | n in tombs && tombs[n].expiresAt > now :: tombs[n]
  }

  function PruneSuppress(suppress: map<string, Suppress>, now: nat): map<string, Suppress> {
    map n | n in suppress && suppress[n].expiresAt > now :: suppress[n]
  }

  /** Last writer wins per node; an equal epoch only refreshes the endpoint hints. */
  function Absorb(m: ClaimMap, c: Claim): (ClaimMap, Outcome) {
    if c.node !in m || c.epoch > m[c.node].epoch then
      (m[c.node := c], Accepted)
    else if c.epoch == m[c.node].epoch && c.vip == m[c.node].vip && c.hints != [] && c.hints != m[c.node].hints then
      (m[c.node := m[c.node].(hints := c.hints)], Accepted)
    else
      (m, IgnoredStale)
  }

  function MergeClaim(g: Gossip, c: Claim, now: nat): (Gossip, Outcome) {
    if !Valid(c.node, c.vip) then
      (g, Rejected)
    else if TombstoneBlocks(g.tombs, c.node, c.epoch, now) then
      (g, BlockedByTombstone)
    else if SuppressBlocks(g.suppress, c.node, c.vip, c.epoch, now) then
      (g.(suppress := InstallSuppress(g.suppress, c.node, c.vip, c.epoch, now, FIGHT_SUPPRESS_TTL)), BlockedByFight)
    else
      var (m, outcome) := Absorb(g.claims, c);
      (g.(claims := m), outcome)
  }

  // ---------- settling duplicate VIPs ----------

  /** No node with a smaller id claims the same VIP. */
  predicate Wins(m: ClaimMap, n: string)
    requires n in m
  {
    forall k :: k in m && m[k].vip == m[n].vip ==> !Less(k, n)
  }

  function Settled(m: ClaimMap): ClaimMap {
    map n | n in m && Wins(m, n) :: m[n]
  }

  function Claimants(m: ClaimMap, vip: string): set<string> {
    set n | n in m && m[n].vip == vip
  }

  predicate NoRepeats(xs: seq<string>) {
    forall i, j :: 0 <= i < j < |xs| ==> xs[i] != xs[j]
  }

  /** Removes the given nodes one by one, appending them to the report. */
  method RemoveAll(m: ClaimMap, doomed: set<string>, report: seq<string>) returns (out: ClaimMap, removed: seq<string>)
    requires NoRepeats(report) && forall n :: n in report ==> n !in doomed
    ensures out == m - doomed
    ensures NoRepeats(removed) && forall n :: n in removed <==> n in report || n in doomed
  {
    out, removed := m, report;
    var todo := doomed;
    while todo != {}
      invariant todo <= doomed && out == m - (doomed - todo)
      invariant NoRepeats(removed) && forall n :: n in removed <==> n in report || n in doomed - todo
      decreases todo
    {
      var n :| n in todo;
      out := out - {n};
      removed := removed + [n];
      todo := todo - {n};
    }
  }

  /** Drops every claim on `vip`, whoever made it. */
  method RemoveClaimsForVip(m: ClaimMap, vip: string) returns (out: ClaimMap, removed: seq<string>)
    ensures out == map n | n in m && m[n].vip != vip :: m[n]
    ensures NoRepeats(removed) && forall n :: n in removed <==> n in m && m[n].vip == vip
  {
    out, removed := RemoveAll(m, Claimants(m, vip), []);
  }

  /** Keeps the smallest claimant of every VIP, and reports the others. */
  method SettleDuplicateVips(m: ClaimMap) returns (out: ClaimMap, losers: seq<string>)
    ensures out == Settled(m)
    ensures NoRepeats(losers) && forall n :: n in losers <==> n in m && n !in out
  {
    hide Wins, NoRepeats;
    assert NoRepeats([]) by {
      NoRepeatsEmpty();
    }
    out, losers := m, [];
    var vips := set n | n in m :: m[n].vip;
    var todo := vips;
    while todo != {}
      invariant todo <= vips
      invariant forall n :: n in out <==> n in m && (m[n].vip in todo || Wins(m, n))
      invariant forall n :: n in out ==> out[n] == m[n]
      invariant NoRepeats(losers) && forall n :: n in losers <==> n in m && n !in out
      decreases todo
    {
      var vip :| vip in todo;
      var nodes := Claimants(m, vip);
      assert nodes != {} by {
        var n :| n in m && m[n].vip == vip;
        assert n in nodes;
      }
      var winner := Smallest(nodes);
      forall n | n in nodes
        ensures Wins(m, n) <==> n == winner
      {
        WinnerIsSmallest(m, vip, winner, n);
      }
      out, losers := RemoveAll(out, nodes - {winner}, losers);
      todo := todo - {vip};
    }
  }

  lemma NoRepeatsEmpty()
    ensures NoRepeats([])
  {
  }

  method Smallest(nodes: set<string>) returns (least: string)
    requires nodes != {}
    ensures least in nodes && forall x :: x in nodes ==> !Less(x, least)
  {
    least :| least in nodes;
    var todo := nodes - {least};
    LessTotal(least, least);
    while todo != {}
      invariant todo <= nodes && least in nodes
      invariant forall x :: x in nodes && x !in todo ==> !Less(x, least)
      decreases todo
    {
      var n :| n in todo;
      if Less(n, least) {
        forall x | x in nodes && x !in todo
          ensures !Less(x, n)
        {
          if Less(x, n) {
            LessTransitive(x, n, least);
          }
        }
        LessTotal(n, n);
        least := n;
      }
      todo := todo - {n};
    }
  }

  lemma WinnerIsSmallest(m: ClaimMap, vip: string, winner: string, n: string)
    requires winner in Claimants(m, vip) && n in Claimants(m, vip)
    requires forall x :: x in Claimants(m, vip) ==> !Less(x, winner)
    ensures Wins(m, n) <==> n == winner
  {
    LessTotal(n, winner);
  }

  /** `s` keeps some claims of `m`: their VIPs are pairwise distinct, every VIP of `m` is still held, by a node that no
      claimant of it is smaller than, and settling once more would remove nothing. */
  ghost predicate WellSettled(m: ClaimMap, s: ClaimMap) {
    && (forall n :: n in s ==> n in m && s[n] == m[n])
    && (forall x, y :: x in s && y in s && x != y ==> s[x].vip != s[y].vip)
    && (forall n :: n in m ==> exists w :: w in s && s[w].vip == m[n].vip && !Less(n, w))
    && Settled(s) == s
  }

  lemma SettlingIsFinal(m: ClaimMap)
    ensures WellSettled(m, Settled(m))
  {
    hide Less;
    var s := Settled(m);
    WinnersDiffer(m);
    forall n | n in m
      ensures exists w :: w in s && s[w].vip == m[n].vip && !Less(n, w)
    {
      assert n in Claimants(m, m[n].vip);
      var w := LeastExists(Claimants(m, m[n].vip));
      WinnerIsSmallest(m, m[n].vip, w, w);
      assert w in s;
    }
  }

  lemma WinnersDiffer(m: ClaimMap)
    ensures var s := Settled(m);
            (forall x, y :: x in s && y in s && x != y ==> s[x].vip != s[y].vip) && Settled(s) == s
  {
    hide Less;
    var s := Settled(m);
    forall x, y | x in s && y in s && x != y
      ensures s[x].vip != s[y].vip
    {
      LessTotal(x, y);
    }
  }
}
