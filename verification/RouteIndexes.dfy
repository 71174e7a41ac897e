/** Rows of the routing table, and what it means for the reverse indexes and revision stamps of `RoutingTable`
    (src/routing.rs) to agree with them. */
module RouteIndexes {
  import opened Wrappers
  import opened Text

  type Endpoint = nat

  datatype RouteState = Candidate | Active | Degraded | Stale

  /** The endpoints of the three multipath slots: direct, relay and server-reflexive. */
  datatype PathEndpoints = PathEndpoints(direct: Option<Endpoint>, relay: Option<Endpoint>, srflx: Option<Endpoint>, activeIdx: nat)

  datatype Row = Row(
    endpoint: Endpoint,
    nodeId: string,
    state: RouteState,
    lastSeen: nat,
    rtt: real,
    jitter: real,
    loss: real,
    quality: int,
    failStreak: int,
    stamp: nat,
    paths: Option<PathEndpoints>)

  type Table = map<string, Row>

  datatype Tombstone = Tombstone(stamp: nat, created: nat)

  type Tombstones = map<string, Tombstone>

  function DirectOnly(ep: Endpoint): PathEndpoints {
    PathEndpoints(Some(ep), None, None, 0)
  }

  function NewRow(ep: Endpoint, now: nat, quality: int): Row {
    Row(ep, "", Candidate, now, -1.0, 0.0, 0.0, quality, 0, 0, Some(DirectOnly(ep)))
  }

  function Slots(row: Row): seq<Option<Endpoint>> {
    if row.paths.None? then [] else [row.paths.value.direct, row.paths.value.relay, row.paths.value.srflx]
  }

  /** `e` is an endpoint of one of the row's paths, other than its primary endpoint. */
  predicate Secondary(row: Row, e: Endpoint) {
    Some(e) in Slots(row) && e != row.endpoint
  }

  function VipU32(vip: string): Option<nat> {
    var ip := ParseIpv4(vip);
    if ip.Some? then Some(ToU32(ip.value)) else None
  }

  lemma VipU32Injective(v: string, w: string)
    requires VipU32(v).Some? && VipU32(v) == VipU32(w)
    ensures v == w
  {
    hide ToU32, ParseIpv4;
    ToU32Injective(ParseIpv4(v).value, ParseIpv4(w).value);
    Ipv4TextUnique(v, w);
  }

  // ---------- the indexes agree with the table ----------

  ghost predicate EndpointsSound(t: Table, idx: map<Endpoint, string>) {
    forall e :: e in idx ==> idx[e] in t && t[idx[e]].endpoint == e
  }

  ghost predicate NodesSound(t: Table, idx: map<string, string>) {
    forall n :: n in idx ==> n != "" && idx[n] in t && t[idx[n]].nodeId == n
  }

  ghost predicate PathsSound(t: Table, idx: map<Endpoint, string>) {
    forall e :: e in idx ==> idx[e] in t && Secondary(t[idx[e]], e)
  }

  /** The index of numeric addresses holds exactly the rows whose VIP parses. */
  ghost predicate AddressesExact(t: Table, idx: map<nat, string>) {
    && (forall u :: u in idx ==> idx[u] in t && VipU32(idx[u]) == Some(u))
    && (forall v :: v in t && VipU32(v).Some? ==> VipU32(v).value in idx && idx[VipU32(v).value] == v)
  }

  /** Every row has a path set, and its direct path is its primary endpoint. */
  ghost predicate DirectIsPrimary(t: Table) {
    forall v :: v in t ==> t[v].paths.Some? && t[v].paths.value.direct == Some(t[v].endpoint)
  }

  /** All stamps lie in 1..`bumps` and no two rows or tombstones share one. */
  ghost predicate Stamped(t: Table, tombs: Tombstones, bumps: nat) {
    && (forall v :: v in t ==> 1 <= t[v].stamp <= bumps)
    && (forall v :: v in tombs ==> 1 <= tombs[v].stamp <= bumps)
    && (forall v, w :: v in t && w in t && v != w ==> t[v].stamp != t[w].stamp)
    && (forall v, w :: v in tombs && w in tombs && v != w ==> tombs[v].stamp != tombs[w].stamp)
    && (forall v, w :: v in t && w in tombs ==> t[v].stamp != tombs[w].stamp)
  }

  /** The entries that do not name `vip`. */
  function Without<K>(idx: map<K, string>, vip: string): map<K, string> {
    map k | k in idx && idx[k] != vip :: idx[k]
  }

  // ---------- taking a row out ----------

  lemma WithoutRow(t: Table, eps: map<Endpoint, string>, paths: map<Endpoint, string>, vip: string)
    requires EndpointsSound(t, eps) && PathsSound(t, paths)
    ensures EndpointsSound(t - {vip}, Without(eps, vip)) && PathsSound(t - {vip}, Without(paths, vip))
  {
    hide Secondary;
  }

  lemma NodeRemoved(t: Table, idx: map<string, string>, vip: string)
    requires NodesSound(t, idx)
    ensures NodesSound(t - {vip}, if vip in t then idx - {t[vip].nodeId} else idx)
  {
  }

  lemma AddressRemoved(t: Table, idx: map<nat, string>, vip: string)
    requires AddressesExact(t, idx)
    ensures AddressesExact(t - {vip}, if VipU32(vip).Some? then idx - {VipU32(vip).value} else idx)
  {
    var idx' := if VipU32(vip).Some? then idx - {VipU32(vip).value} else idx;
    forall v | v in t - {vip} && VipU32(v).Some?
      ensures VipU32(v).value in idx' && idx'[VipU32(v).value] == v
    {
      hide VipU32;
      if VipU32(vip).Some? && VipU32(vip) == VipU32(v) {
        VipU32Injective(v, vip);
      }
    }
  }

  lemma TombstoneStamped(t: Table, tombs: Tombstones, bumps: nat, vip: string, now: nat)
    requires Stamped(t, tombs, bumps)
    ensures Stamped(t - {vip}, tombs[vip := Tombstone(bumps + 1, now)], bumps + 1)
  {
  }

  // ---------- putting a row in ----------

  /** The endpoint index once `vip` has moved to `ep`: whatever its old endpoint named is dropped, even another row. */
  function Moved(t: Table, idx: map<Endpoint, string>, vip: string, ep: Endpoint): map<Endpoint, string> {
    (if vip in t then idx - {t[vip].endpoint} else idx)[ep := vip]
  }

  lemma EndpointSet(t: Table, idx: map<Endpoint, string>, vip: string, row: Row)
    requires EndpointsSound(t, idx)
    ensures EndpointsSound(t[vip := row], Moved(t, idx, vip, row.endpoint))
  {
  }

  lemma NodeSet(t: Table, idx: map<string, string>, vip: string, row: Row)
    requires NodesSound(t, idx)
    ensures NodesSound(t[vip := row], Renamed(t, idx, vip, row.nodeId))
  {
  }

  /** The node index once `vip` belongs to `node`, the empty string standing for an unidentified peer. */
  function Renamed(t: Table, idx: map<string, string>, vip: string, node: string): map<string, string> {
    var left := if vip in t && t[vip].nodeId != node then idx - {t[vip].nodeId} else idx;
    if node != "" then left[node := vip] else left
  }

  lemma AddressSet(t: Table, idx: map<nat, string>, vip: string, row: Row)
    requires AddressesExact(t, idx)
    ensures AddressesExact(t[vip := row], if VipU32(vip).Some? then idx[VipU32(vip).value := vip] else idx)
  {
    var idx' := if VipU32(vip).Some? then idx[VipU32(vip).value := vip] else idx;
    forall v | v in t[vip := row] && VipU32(v).Some?
      ensures VipU32(v).value in idx' && idx'[VipU32(v).value] == v
    {
      hide VipU32;
      if VipU32(vip).Some? && VipU32(vip) == VipU32(v) {
        VipU32Injective(v, vip);
      }
    }
  }

  lemma DirectSet(t: Table, vip: string, row: Row)
    requires DirectIsPrimary(t) && row.paths.Some? && row.paths.value.direct == Some(row.endpoint)
    ensures DirectIsPrimary(t[vip := row])
  {
  }

  lemma RowStamped(t: Table, tombs: Tombstones, bumps: nat, vip: string, row: Row)
    requires Stamped(t, tombs, bumps) && row.stamp == bumps + 1
    ensures Stamped(t[vip := row], tombs - {vip}, bumps + 1)
  {
  }

  /** A row whose stamp is not touched, and fewer tombstones. */
  lemma StampKept(t: Table, tombs: Tombstones, bumps: nat, vip: string, row: Row, fewer: Tombstones)
    requires Stamped(t, tombs, bumps) && vip in t && row.stamp == t[vip].stamp
    requires forall v :: v in fewer ==> v in tombs && fewer[v] == tombs[v]
    ensures Stamped(t[vip := row], fewer, bumps)
  {
  }

  // ---------- changes that leave the indexed fields alone ----------

  ghost predicate SameRoutes(t: Table, t': Table) {
    && t.Keys == t'.Keys
    && forall v :: v in t ==>
         t'[v].endpoint == t[v].endpoint && t'[v].nodeId == t[v].nodeId && t'[v].stamp == t[v].stamp
  }

  /** Measurements, state changes and multipath slots may change freely; only the path index depends on the last. */
  lemma SameRoutesKeep(t: Table, t': Table, eps: map<Endpoint, string>, nodes: map<string, string>, addrs: map<nat, string>)
    requires SameRoutes(t, t') && EndpointsSound(t, eps) && NodesSound(t, nodes) && AddressesExact(t, addrs)
    ensures EndpointsSound(t', eps) && NodesSound(t', nodes) && AddressesExact(t', addrs)
  {
    hide VipU32;
  }

  lemma SameRoutesStamped(t: Table, t': Table, tombs: Tombstones, bumps: nat)
    requires SameRoutes(t, t') && Stamped(t, tombs, bumps)
    ensures Stamped(t', tombs, bumps)
  {
  }

  lemma PathsWithout(t: Table, paths: map<Endpoint, string>, vip: string, row: Row)
    requires PathsSound(t, paths)
    ensures PathsSound(t[vip := row] - {vip}, Without(paths, vip))
  {
    hide Secondary;
  }

  // ---------- when is the endpoint index complete? ----------

  /** Every row can be found by its endpoint, under its own name or that of a row at the same endpoint. */
  ghost predicate Complete(t: Table, idx: map<Endpoint, string>) {
    forall v :: v in t ==> t[v].endpoint in idx
  }

  ghost predicate Shares(t: Table, vip: string) {
    vip in t && exists w :: w in t && w != vip && t[w].endpoint == t[vip].endpoint
  }

  /** A removal keeps a complete index complete unless the index named that row for an endpoint it shared. */
  lemma CompleteAfterRemove(t: Table, idx: map<Endpoint, string>, vip: string)
    requires EndpointsSound(t, idx) && Complete(t, idx)
    ensures Complete(t - {vip}, Without(idx, vip)) <==> !(Shares(t, vip) && idx[t[vip].endpoint] == vip)
  {
    if Shares(t, vip) && idx[t[vip].endpoint] == vip {
      var w :| w in t && w != vip && t[w].endpoint == t[vip].endpoint;
      assert w in t - {vip};
    }
  }
}
