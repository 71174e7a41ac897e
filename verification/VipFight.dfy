/** Self-claimed VIPs and the fights over them (src/net/claim.rs, and the reroll rule of README.md): the lower
    `node_id` keeps a contested VIP, the other node picks a free one in the same /24. */
module VipFight {
  import opened Wrappers
  import opened Text

  const HOSTS: nat := 254

  predicate NodeIdWins(local: string, remote: string) {
    Less(local, remote)
  }

  predicate LocalLosesVipConflict(local: string, remote: string) {
    !NodeIdWins(local, remote) && local != remote
  }

  predicate ShouldReroll(localNode: string, localVip: string, remoteNode: string, remoteVip: string) {
    remoteVip == localVip && LocalLosesVipConflict(localNode, remoteNode)
  }

  /** Of two different nodes that claim the same VIP, exactly the one with the larger id loses. */
  lemma ExactlyOneLoses(x: string, y: string, vip: string)
    requires x != y
    ensures ShouldReroll(x, vip, y, vip) <==> !ShouldReroll(y, vip, x, vip)
    ensures ShouldReroll(x, vip, y, vip) <==> Less(y, x)
  {
    LessTotal(x, y);
  }

  predicate ClaimVipValid(vip: string) {
    var ip := ParseIpv4(vip);
    && ip.Some?
    && ip.value != Ipv4(0, 0, 0, 0)
    && ip.value != Ipv4(255, 255, 255, 255)
    && !(224 <= ip.value.a <= 239)
    && ip.value.a != 127
    && ip.value.d != 0
    && ip.value.d != 255
  }

  // ---------- picking a free VIP ----------

  datatype Prefix = Prefix(a: Octet, b: Octet, c: Octet)

  function HostVip(p: Prefix, host: Octet): string {
    FormatIpv4(Ipv4(p.a, p.b, p.c, host))
  }

  lemma HostVipInjective(p: Prefix, h: Octet, k: Octet)
    requires HostVip(p, h) == HostVip(p, k)
    ensures h == k
  {
    Ipv4RoundTrip(HostVip(p, h), Ipv4(p.a, p.b, p.c, h));
    Ipv4RoundTrip(HostVip(p, h), Ipv4(p.a, p.b, p.c, k));
  }

  function ParseAll(parts: seq<string>): seq<Octet> {
    if parts == [] then []
    else
      var first := ParseU8(parts[0]);
      (if first.Some? then [first.value] else []) + ParseAll(parts[1..])
  }

  /** The numbers among the dot-separated parts of `base`; anything else is skipped. */
  function BaseOctets(base: string): seq<Octet> {
    ParseAll(Split(base))
  }

  /** The `offset`-th host that the scan looks at. */
  function ScanHost(last: Octet, offset: nat): Octet {
    ((last * 37 + 17) % HOSTS + offset) % HOSTS + 1
  }

  /** The scan looks at every host 1..254 exactly once. */
  lemma ScanVisitsEachHostOnce(last: Octet, host: Octet)
    requires 1 <= host <= HOSTS
    ensures exists offset: nat :: offset < HOSTS && ScanHost(last, offset) == host
    ensures forall i: nat, j: nat :: i < HOSTS && j < HOSTS && ScanHost(last, i) == ScanHost(last, j) ==> i == j
  {
    var start := (last * 37 + 17) % HOSTS;
    var offset := if host - 1 >= start then host - 1 - start else host - 1 + HOSTS - start;
    assert ScanHost(last, offset) == host;
  }

  method PickFreeVip(base: string, occupied: set<string>) returns (vip: Option<string>)
    ensures |BaseOctets(base)| != 4 ==> vip.None?
    ensures |BaseOctets(base)| == 4 ==> vip == Pick(BaseOctets(base), occupied)
  {
    var octets := BaseOctets(base);
    if |octets| != 4 {
      return None;
    }
    var p := Prefix(octets[0], octets[1], octets[2]);
    for offset := 0 to HOSTS
      invariant Pick(octets, occupied) == PickFrom(p, octets[3], occupied, offset)
    {
      var candidate := HostVip(p, ScanHost(octets[3], offset));
      if candidate !in occupied {
        return Some(candidate);
      }
    }
    vip := None;
  }

  function Pick(octets: seq<Octet>, occupied: set<string>): Option<string>
    requires |octets| == 4
  {
    PickFrom(Prefix(octets[0], octets[1], octets[2]), octets[3], occupied, 0)
  }

  function PickFrom(p: Prefix, last: Octet, occupied: set<string>, offset: nat): Option<string>
    decreases HOSTS - offset
  {
    if offset >= HOSTS then None
    else
      var candidate := HostVip(p, ScanHost(last, offset));
      if candidate !in occupied then Some(candidate) else PickFrom(p, last, occupied, offset + 1)
  }

  lemma {:induction false} PickFromScans(p: Prefix, last: Octet, occupied: set<string>, offset: nat)
    requires offset <= HOSTS
    ensures var r := PickFrom(p, last, occupied, offset);
            if r.Some? then
              r.value !in occupied && exists i: nat :: offset <= i < HOSTS && r.value == HostVip(p, ScanHost(last, i))
            else
              forall i: nat :: offset <= i < HOSTS ==> HostVip(p, ScanHost(last, i)) in occupied
    decreases HOSTS - offset
  {
    if offset < HOSTS && HostVip(p, ScanHost(last, offset)) in occupied {
      PickFromScans(p, last, occupied, offset + 1);
    }
  }

  /** The pick is free and in the /24; it fails exactly when all 254 hosts are taken. */
  lemma PickIsFree(p: Prefix, last: Octet, occupied: set<string>)
    ensures var r := PickFrom(p, last, occupied, 0);
            && (r.Some? ==> r.value !in occupied && r.value in Unit(p))
            && (r.None? <==> Unit(p) <= occupied)
  {
    hide HostVip, ScanHost, PickFrom;
    PickFromScans(p, last, occupied, 0);
    var r := PickFrom(p, last, occupied, 0);
    if r.Some? {
      var i: nat :| i < HOSTS && r.value == HostVip(p, ScanHost(last, i));
      ScanHostRange(last, i);
    } else {
      forall v | v in Unit(p)
        ensures v in occupied
      {
        var h: Octet :| 1 <= h <= HOSTS && HostVip(p, h) == v;
        ScanVisitsEachHostOnce(last, h);
      }
    }
  }

  lemma ScanHostRange(last: Octet, offset: nat)
    ensures 1 <= ScanHost(last, offset) <= HOSTS
  {
  }

  /** All host VIPs of the /24. */
  function Unit(p: Prefix): set<string> {
    set h: Octet | 1 <= h <= HOSTS :: HostVip(p, h)
  }

  function FirstHosts(p: Prefix, n: nat): set<string>
    requires n <= HOSTS
  {
    set h: Octet | 1 <= h <= n :: HostVip(p, h)
  }

  lemma {:induction false} FirstHostsSize(p: Prefix, n: nat)
    requires n <= HOSTS
    ensures |FirstHosts(p, n)| == n
  {
    if n > 0 {
      FirstHostsSize(p, n - 1);
      assert HostVip(p, n) !in FirstHosts(p, n - 1) by {
        if HostVip(p, n) in FirstHosts(p, n - 1) {
          var h: Octet :| 1 <= h <= n - 1 && HostVip(p, h) == HostVip(p, n);
          HostVipInjective(p, h, n);
        }
      }
      assert FirstHosts(p, n) == FirstHosts(p, n - 1) + {HostVip(p, n)};
    }
  }

  lemma UnitSize(p: Prefix)
    ensures |Unit(p)| == HOSTS
  {
    FirstHostsSize(p, HOSTS);
    assert Unit(p) == FirstHosts(p, HOSTS);
  }

  // ---------- fights ----------

  /** Every node's current VIP. */
  type Claims = map<string, string>

  predicate Loses(c: Claims, n: string) {
    n in c && exists m :: m in c && ShouldReroll(n, c[n], m, c[m])
  }

  function Losers(c: Claims): set<string> {
    set n | n in c && Loses(c, n)
  }

  predicate Distinct(c: Claims) {
    forall m, n :: m in c && n in c && m != n ==> c[m] != c[n]
  }

  /** Every member lives in the unit's /24. */
  predicate Members(p: Prefix, c: Claims) {
    forall n :: n in c ==> c[n] in Unit(p)
  }

  lemma NoLosersMeansDistinct(c: Claims)
    ensures Losers(c) == {} <==> Distinct(c)
  {
    if Losers(c) == {} {
      forall m, n | m in c && n in c && m != n
        ensures c[m] != c[n]
      {
        ExactlyOneLoses(m, n, c[m]);
        assert m !in Losers(c) && n !in Losers(c);
      }
    }
  }

  /** A node that loses its VIP moves to the first free one. */
  function Reroll(p: Prefix, last: Octet, c: Claims, n: string): Option<Claims>
    requires n in c
  {
    var vip := PickFrom(p, last, c.Values, 0);
    if vip.Some? then Some(c[n := vip.value]) else None
  }

  lemma {:induction false} DistinctSize(c: Claims)
    requires Distinct(c)
    ensures |c.Values| == |c|
  {
    if c != map[] {
      var n :| n in c;
      var rest := c - {n};
      assert rest.Keys == c.Keys - {n};
      assert forall m :: m in rest ==> rest[m] == c[m];
      DistinctSize(rest);
      assert c.Values == rest.Values + {c[n]} by {
        assert forall m :: m in c ==> m == n || m in rest;
        forall v | v in rest.Values
          ensures v in c.Values
        {
          var m :| m in rest && rest[m] == v;
          assert m in c && c[m] == v;
        }
      }
      assert c[n] !in rest.Values;
    } else {
      assert c.Values == {};
    }
  }

  lemma {:induction false} ValuesSize(c: Claims)
    ensures |c.Values| <= |c|
    ensures |c.Values| == |c| ==> Distinct(c)
  {
    if c == map[] {
      assert c.Values == {};
    } else {
      var n :| n in c;
      var rest := c - {n};
      assert rest.Keys == c.Keys - {n};
      ValuesSize(rest);
      assert c.Values == rest.Values + {c[n]} by {
        assert forall m :: m in c ==> m == n || m in rest;
        forall v | v in rest.Values
          ensures v in c.Values
        {
          var m :| m in rest && rest[m] == v;
          assert m in c && c[m] == v;
        }
      }
      if |c.Values| == |c| {
        assert c[n] !in rest.Values;
        forall x, y | x in c && y in c && x != y
          ensures c[x] != c[y]
        {
          assert x != n ==> x in rest && rest[x] in rest.Values;
          assert y != n ==> y in rest && rest[y] in rest.Values;
        }
      }
    }
  }

  /** While someone loses, a unit of at most 254 members has a free VIP; the reroll moves that node alone, keeps
      everyone in the /24, and takes exactly that node out of the losers. */
  lemma RerollResolvesOneLoser(p: Prefix, last: Octet, c: Claims, n: string)
    requires Members(p, c) && |c| <= HOSTS && n in Losers(c)
    ensures var r := Reroll(p, last, c, n);
            && r.Some?
            && r.value.Keys == c.Keys && Members(p, r.value)
            && (forall m :: m in c && m != n ==> r.value[m] == c[m])
            && Losers(r.value) == Losers(c) - {n}
  {
    PickIsFree(p, last, c.Values);
    FreeVipExists(p, c);
    var vip := PickFrom(p, last, c.Values, 0).value;
    var d := c[n := vip];
    forall m
      ensures m in Losers(d) <==> m in Losers(c) - {n}
    {
      RerollEffect(c, n, vip, m);
    }
  }

  lemma FreeVipExists(p: Prefix, c: Claims)
    requires Members(p, c) && |c| <= HOSTS && Losers(c) != {}
    ensures !(Unit(p) <= c.Values)
  {
    UnitSize(p);
    ValuesSize(c);
    NoLosersMeansDistinct(c);
    if Unit(p) <= c.Values {
      SubsetSize(Unit(p), c.Values);
    }
  }

  lemma RerollEffect(c: Claims, n: string, vip: string, m: string)
    requires n in Losers(c) && vip !in c.Values
    ensures Loses(c[n := vip], m) <==> Loses(c, m) && m != n
  {
    hide ShouldReroll;
    var d := c[n := vip];
    assert forall k :: k in c && k != n ==> d[k] == c[k] && d[k] in c.Values;
    OnlySameVip(d);
    if Loses(c, m) && m != n {
      var k :| k in c && ShouldReroll(m, c[m], k, c[k]);
      OnlySameVip(c);
      var w :| w in c && ShouldReroll(n, c[n], w, c[w]);
      if k == n {
        LosesTransitive(m, n, w, c[m]);
        assert w in d && ShouldReroll(m, d[m], w, d[w]);
      } else {
        assert k in d && ShouldReroll(m, d[m], k, d[k]);
      }
    }
    if Loses(d, m) {
      var k :| k in d && ShouldReroll(m, d[m], k, d[k]);
      assert k in c && ShouldReroll(m, c[m], k, c[k]);
    }
  }

  /** Only a different node with the same VIP can win a fight. */
  lemma OnlySameVip(c: Claims)
    ensures forall m, n :: m in c && n in c && ShouldReroll(m, c[m], n, c[n]) ==> m != n && c[m] == c[n]
  {
  }

  lemma LosesTransitive(x: string, y: string, z: string, vip: string)
    requires ShouldReroll(x, vip, y, vip) && ShouldReroll(y, vip, z, vip)
    ensures ShouldReroll(x, vip, z, vip)
  {
    LessTotal(x, y);
    LessTotal(y, z);
    LessTransitive(z, y, x);
    LessTotal(x, z);
  }

  /** A run of rerolls: each node in turn loses a fight at that moment and rerolls, from whatever base it uses. */
  datatype Turn = Turn(node: string, last: Octet)

  ghost predicate IsRun(p: Prefix, c: Claims, turns: seq<Turn>, end: Claims)
    decreases |turns|
  {
    if turns == [] then end == c
    else
      && turns[0].node in Losers(c)
      && var r := Reroll(p, turns[0].last, c, turns[0].node);
         r.Some? && IsRun(p, r.value, turns[1..], end)
  }

  /** Every run settles one loser per turn and never moves anyone else; so it has at most as many turns as there were
      losers, and a run that long ends with pairwise distinct VIPs. */
  lemma {:induction false} EveryRunSettles(p: Prefix, c: Claims, turns: seq<Turn>, end: Claims)
    requires Members(p, c) && |c| <= HOSTS && IsRun(p, c, turns, end)
    ensures Members(p, end) && end.Keys == c.Keys
    ensures |Losers(end)| == |Losers(c)| - |turns|
    ensures forall n :: n in c && n !in Losers(c) ==> end[n] == c[n]
    ensures |turns| == |Losers(c)| <==> Distinct(end)
    decreases |turns|
  {
    if turns == [] {
      NoLosersMeansDistinct(c);
      assert Losers(c) == {} <==> |Losers(c)| == 0;
    } else {
      var n := turns[0].node;
      RerollResolvesOneLoser(p, turns[0].last, c, n);
      var d := Reroll(p, turns[0].last, c, n).value;
      assert |d| == |c| by {
        assert |d.Keys| == |c.Keys|;
      }
      assert |Losers(d)| == |Losers(c)| - 1;
      hide Losers, Distinct, Members, Reroll;
      EveryRunSettles(p, d, turns[1..], end);
    }
  }

  /** A run that has not settled can always go on. */
  lemma UnsettledRunContinues(p: Prefix, c: Claims, last: Octet)
    requires Members(p, c) && |c| <= HOSTS && !Distinct(c)
    ensures exists n :: n in Losers(c) && Reroll(p, last, c, n).Some?
  {
    NoLosersMeansDistinct(c);
    var n :| n in Losers(c);
    RerollResolvesOneLoser(p, last, c, n);
  }

  /** Fights can be settled in a /24 exactly when it has at most 254 members. */
  lemma SettlesExactlyWhenMembersFit(p: Prefix, nodes: set<string>, c: Claims)
    requires c.Keys == nodes && Members(p, c)
    ensures |nodes| > HOSTS ==> !Distinct(c)
    ensures |nodes| <= HOSTS ==> exists turns, end :: IsRun(p, c, turns, end) && Distinct(end)
  {
    if |nodes| > HOSTS {
      UnitSize(p);
      assert |c| == |c.Keys|;
      assert c.Values <= Unit(p);
      SubsetSize(c.Values, Unit(p));
      if Distinct(c) {
        DistinctSize(c);
      }
    } else {
      assert |c| == |c.Keys|;
      var turns, end := SettlingRun(p, c);
    }
  }

  lemma {:induction false} SettlingRun(p: Prefix, c: Claims) returns (turns: seq<Turn>, end: Claims)
    requires Members(p, c) && |c| <= HOSTS
    ensures IsRun(p, c, turns, end) && Distinct(end)
    decreases |Losers(c)|
  {
    NoLosersMeansDistinct(c);
    if Losers(c) == {} {
      turns, end := [], c;
    } else {
      var n :| n in Losers(c);
      RerollResolvesOneLoser(p, 0, c, n);
      var d := Reroll(p, 0, c, n).value;
      assert |d| == |c| by {
        assert |d.Keys| == |c.Keys|;
      }
      var rest;
      rest, end := SettlingRun(p, d);
      turns := [Turn(n, 0)] + rest;
      assert turns[1..] == rest;
    }
  }
}
