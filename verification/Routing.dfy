/** The routing table (`RoutingTable` in src/routing.rs): a primary map with four reverse indexes, revision stamps and
    tombstones, all updated in place.  Times are milliseconds on a clock passed in by the caller. */
module Routing {
  import opened Wrappers
  import opened Text
  import opened RouteIndexes

  const TOMBSTONE_TTL: nat := 300_000
  const TOMBSTONE_MIN_RETENTION: nat := 600_000
  const TOMBSTONE_PRUNE_INTERVAL: nat := 60_000
  const U64: nat := 0x1_0000_0000_0000_0000

  /** The address without its last `host` bits. */
  function Network(address: nat, host: nat): nat {
    if host == 0 then address else Network(address / 2, host - 1)
  }

  /** The addresses agree in their first `prefix` bits, capped at 32. */
  predicate SameSubnet(a: Ipv4, b: Ipv4, prefix: nat) {
    var host := 32 - Min(prefix, 32);
    Network(ToU32(a), host) == Network(ToU32(b), host)
  }

  /** The row at `prev` keeps its endpoint from an update by `node`: they are known to differ, or the update is
      anonymous and the row is healthy. */
  predicate Rejects(prev: Row, node: Option<string>) {
    var incoming := if node.Some? then node.value else "";
    prev.nodeId != "" && incoming != prev.nodeId && !(incoming == "" && (prev.state.Stale? || prev.state.Degraded?))
  }

  method RejectsAlias(prev: Row, node: Option<string>) returns (rejected: bool)
    ensures rejected <==> Rejects(prev, node)
  {
    var incoming := if node.Some? then node.value else "";
    var conflicting := prev.nodeId != "" && incoming != "" && prev.nodeId != incoming;
    var ambiguous := prev.nodeId != "" && incoming == "";
    var allowRebind := ambiguous && (prev.state.Stale? || prev.state.Degraded?);
    rejected := conflicting || (ambiguous && !allowRebind);
  }

  predicate Identified(node: Option<string>) {
    node.Some? && node.value != ""
  }

  /** The row after an update, but for its stamp. */
  function Refreshed(row: Row, ep: Endpoint, node: Option<string>, now: nat): Row {
    row.(endpoint := ep,
         lastSeen := now,
         nodeId := if node.Some? then node.value else row.nodeId,
         paths := Some(if row.paths.Some? then row.paths.value.(direct := Some(ep)) else DirectOnly(ep)))
  }

  /** What an accepted update does to the rows: `vip` is refreshed, an identified predecessor at the endpoint is gone, all
      else is as before; the endpoint index moves as `Moved` says. */
  ghost predicate Accepted(t: Table, idx: map<Endpoint, string>, vip: string, ep: Endpoint, node: Option<string>, now: nat,
                           t': Table, idx': map<Endpoint, string>)
  {
    && vip in t' && t'[vip].endpoint == ep && t'[vip].lastSeen == now
    && t'[vip].nodeId == (if node.Some? then node.value else if vip in t then t[vip].nodeId else "")
    && (vip in t ==> t'[vip] == Refreshed(t[vip], ep, node, now).(stamp := t'[vip].stamp))
    && t' - {vip} == t - {vip} - (if ep in idx && idx[ep] != vip && Identified(node) then {idx[ep]} else {})
    && idx' == Moved(t, idx, vip, ep)
  }

  /** A row carries the newest revision exactly if it is new, or moved, or changed its node; otherwise its old stamp. */
  predicate Marked(t: Table, vip: string, row: Row, revision: nat) {
    row.stamp == if vip in t && t[vip].endpoint == row.endpoint && t[vip].nodeId == row.nodeId then t[vip].stamp else revision
  }

  /** A new row is a candidate with the initial quality and no measurement yet. */
  predicate Unmeasured(row: Row, quality: int) {
    && row.state.Candidate? && row.quality == quality && row.rtt < 0.0 && row.failStreak == 0
    && row.loss == 0.0 && row.jitter == 0.0 && row.paths == Some(DirectOnly(row.endpoint))
  }

  /** An accepted update keeps a complete endpoint index complete unless the row leaves an endpoint that it shared, whether or
      not it also removes a predecessor. */
  lemma CompleteAfterUpdate(t: Table, idx: map<Endpoint, string>, vip: string, ep: Endpoint, node: Option<string>, now: nat,
                            t': Table, idx': map<Endpoint, string>)
    requires EndpointsSound(t, idx) && Complete(t, idx) && Accepted(t, idx, vip, ep, node, now, t', idx')
    ensures Complete(t', idx') <==> !(Shares(t, vip) && t[vip].endpoint != ep)
  {
    hide Refreshed;
    if Shares(t, vip) && t[vip].endpoint != ep {
      var w :| w in t && w != vip && t[w].endpoint == t[vip].endpoint;
      assert w in t' - {vip};
      assert t'[w].endpoint !in idx';
    } else {
      forall v | v in t' && v != vip
        ensures t'[v].endpoint in idx'
      {
        assert v in t' - {vip};
      }
    }
  }

  lemma MovedAnyway(t: Table, idx: map<Endpoint, string>, vip: string, ep: Endpoint)
    requires ep in idx && idx[ep] != vip
    ensures Moved(t, idx - {ep}, vip, ep) == Moved(t - {idx[ep]}, idx - {ep}, vip, ep) == Moved(t, idx, vip, ep)
  {
  }

  class RoutingTable {
    var table: Table
    var epToVip: map<Endpoint, string>
    var pathEpToVip: map<Endpoint, string>
    var nodeToVip: map<string, string>
    var u32ToVip: map<nat, string>
    var revision: nat
    var tombstones: Tombstones
    var lastPrune: nat
    const qualityInitial: int
    // How often `revision` was incremented, without wrap-around.
    ghost var bumps: nat

    ghost predicate Valid()
      reads this
    {
      && EndpointsSound(table, epToVip)
      && PathsSound(table, pathEpToVip)
      && NodesSound(table, nodeToVip)
      && AddressesExact(table, u32ToVip)
      && DirectIsPrimary(table)
      && table.Keys !! tombstones.Keys
      && revision == bumps % U64
      && (bumps < U64 ==> Stamped(table, tombstones, bumps))
    }

    constructor (now: nat, qualityInitial: int)
      ensures Valid() && table == map[] && epToVip == map[] && tombstones == map[] && bumps == 0
    {
      table, epToVip, pathEpToVip, nodeToVip, u32ToVip := map[], map[], map[], map[], map[];
      revision, tombstones, lastPrune, bumps := 0, map[], now, 0;
      this.qualityInitial := qualityInitial;
    }

    /** `wrapping_add(1)` */
    method BumpRevision()
      modifies `revision, `bumps
      requires revision == bumps % U64
      ensures bumps == old(bumps) + 1 && revision == bumps % U64
      ensures bumps < U64 ==> revision == bumps
    {
      revision, bumps := if revision + 1 == U64 then 0 else revision + 1, bumps + 1;
    }

    /** Afterwards the path index names `vip` for exactly its own secondary endpoints; other rows keep the rest. */
    method RebuildPathIndex(vip: string)
      requires PathsSound(table - {vip}, Without(pathEpToVip, vip))
      modifies `pathEpToVip
      ensures PathsSound(table, pathEpToVip)
      ensures forall e :: (e in pathEpToVip && pathEpToVip[e] == vip) <==> vip in table && Secondary(table[vip], e)
      ensures forall e :: e in pathEpToVip && pathEpToVip[e] != vip ==>
                e in old(pathEpToVip) && pathEpToVip[e] == old(pathEpToVip)[e]
    {
      pathEpToVip := Without(pathEpToVip, vip);
      if vip in table {
        var slots := Slots(table[vip]);
        ghost var kept := pathEpToVip;
        for i := 0 to |slots|
          invariant forall e :: (e in pathEpToVip && pathEpToVip[e] == vip) <==>
                                Some(e) in slots[..i] && e != table[vip].endpoint
          invariant forall e :: e in pathEpToVip && pathEpToVip[e] != vip ==> e in kept && pathEpToVip[e] == kept[e]
        {
          if slots[i].Some? && slots[i].value != table[vip].endpoint {
            pathEpToVip := pathEpToVip[slots[i].value := vip];
          }
          assert slots[..i + 1] == slots[..i] + [slots[i]];
        }
        assert slots[..|slots|] == slots;
      }
    }

    /** Both bounds are compared, so the longer one decides. */
    method PruneTombstones(retain: set<string>, now: nat)
      requires Valid()
      modifies `tombstones, `lastPrune
      ensures Valid()
      ensures forall v :: v in tombstones <==>
                v in old(tombstones) && (v in retain || Age(now, old(tombstones)[v].created) < TOMBSTONE_MIN_RETENTION)
      ensures forall v :: v in tombstones ==> tombstones[v] == old(tombstones)[v]
      ensures lastPrune == now
    {
      tombstones := map v | v in tombstones &&
                            (v in retain || Age(now, tombstones[v].created) < TOMBSTONE_MIN_RETENTION
                                         || Age(now, tombstones[v].created) < TOMBSTONE_TTL) :: tombstones[v];
      lastPrune := now;
    }

    /** The row goes, and with it the entries that name it: in the endpoint index only if that names this row, in the node
        index whichever row that names. */
    method DropRow(vip: string)
      requires EndpointsSound(table, epToVip) && NodesSound(table, nodeToVip)
      modifies `table, `epToVip, `nodeToVip
      ensures table == old(table) - {vip}
      ensures epToVip == Without(old(epToVip), vip)
      ensures nodeToVip == if vip in old(table) then old(nodeToVip) - {old(table)[vip].nodeId} else old(nodeToVip)
    {
      if vip in table {
        var row := table[vip];
        table := table - {vip};
        if row.endpoint in epToVip && epToVip[row.endpoint] == vip {
          epToVip := epToVip - {row.endpoint};
        }
        if row.nodeId != "" {
          nodeToVip := nodeToVip - {row.nodeId};
        }
      }
    }

    method Remove(vip: string, now: nat)
      requires Valid()
      modifies `table, `epToVip, `pathEpToVip, `nodeToVip, `u32ToVip, `revision, `bumps, `tombstones
      ensures Valid()
      ensures table == old(table) - {vip}
      ensures epToVip == Without(old(epToVip), vip)
      ensures pathEpToVip == Without(old(pathEpToVip), vip)
      ensures nodeToVip == if vip in old(table) then old(nodeToVip) - {old(table)[vip].nodeId} else old(nodeToVip)
      ensures bumps == old(bumps) + 1
      ensures tombstones == old(tombstones)[vip := Tombstone(revision, now)]
    {
      hide EndpointsSound, PathsSound, NodesSound, AddressesExact, Stamped, VipU32;
      WithoutRow(table, epToVip, pathEpToVip, vip);
      NodeRemoved(table, nodeToVip, vip);
      AddressRemoved(table, u32ToVip, vip);
      if bumps < U64 {
        TombstoneStamped(table, tombstones, bumps, vip, now);
      }
      pathEpToVip := Without(pathEpToVip, vip);
      DropRow(vip);
      var u := VipU32(vip);
      if u.Some? {
        u32ToVip := u32ToVip - {u.value};
      }
      BumpRevision();
      tombstones := tombstones[vip := Tombstone(revision, now)];
    }

    /** Gives up `ep`, held by another row: an identified update replaces that row, an anonymous one takes the endpoint. */
    method Displace(ep: Endpoint, node: Option<string>, now: nat)
      requires Valid() && ep in epToVip && !Rejects(table[epToVip[ep]], node)
      modifies `table, `epToVip, `pathEpToVip, `nodeToVip, `u32ToVip, `revision, `bumps, `tombstones
      ensures Valid()
      ensures epToVip == old(epToVip) - {ep}
      ensures Identified(node) ==>
                && table == old(table) - {old(epToVip)[ep]}
                && nodeToVip == old(nodeToVip) - {old(table)[old(epToVip)[ep]].nodeId}
                && bumps == old(bumps) + 1
                && tombstones == old(tombstones)[old(epToVip)[ep] := Tombstone(revision, now)]
      ensures !Identified(node) ==>
                table == old(table) && nodeToVip == old(nodeToVip) && bumps == old(bumps) && tombstones == old(tombstones)
    {
      hide PathsSound, NodesSound, AddressesExact, Stamped;
      var prev := epToVip[ep];
      var prevNode := table[prev].nodeId;
      var incoming := if node.Some? then node.value else "";
      if incoming != "" && prevNode == incoming {
        Remove(prev, now);
      } else if prevNode == "" && incoming != "" {
        Remove(prev, now);
      } else {
        epToVip := epToVip - {ep};
      }
    }

    method Install(vip: string, ep: Endpoint, node: Option<string>, now: nat)
      requires Valid()
      modifies `table, `epToVip, `pathEpToVip, `nodeToVip, `u32ToVip, `revision, `bumps, `tombstones
      ensures Valid()
      ensures var was := if vip in old(table) then old(table)[vip] else NewRow(ep, now, qualityInitial);
              var row := Refreshed(was, ep, node, now);
              var changed := vip !in old(table) || was.endpoint != ep || was.nodeId != row.nodeId;
              && table == old(table)[vip := if changed then row.(stamp := revision) else row]
              && bumps == old(bumps) + (if changed then 1 else 0)
              && nodeToVip == Renamed(old(table), old(nodeToVip), vip, row.nodeId)
      ensures epToVip == Moved(old(table), old(epToVip), vip, ep)
      ensures tombstones == old(tombstones) - {vip}
    {
      hide EndpointsSound, PathsSound, NodesSound, AddressesExact, Stamped, VipU32, DirectIsPrimary, Without;
      var was := if vip in table then table[vip] else NewRow(ep, now, qualityInitial);
      var row := Refreshed(was, ep, node, now);
      var changed := vip !in table || was.endpoint != ep || (node.Some? && was.nodeId != node.value);
      if changed {
        StampChanged(table, tombstones, bumps, vip, row);
        BumpRevision();
        row := row.(stamp := revision);
      } else if bumps < U64 {
        StampKept(table, tombstones, bumps, vip, row, tombstones - {vip});
      }
      PathsWithout(table, pathEpToVip, vip, row);
      DirectSet(table, vip, row);
      Reindex(vip, row);
      table, tombstones := table[vip := row], tombstones - {vip};
      RebuildPathIndex(vip);
    }

    /** The three indexes that name rows by endpoint, node and address follow `row`. */
    method Reindex(vip: string, row: Row)
      requires EndpointsSound(table, epToVip) && NodesSound(table, nodeToVip) && AddressesExact(table, u32ToVip)
      modifies `epToVip, `nodeToVip, `u32ToVip
      ensures EndpointsSound(table[vip := row], epToVip)
      ensures NodesSound(table[vip := row], nodeToVip)
      ensures AddressesExact(table[vip := row], u32ToVip)
      ensures epToVip == Moved(table, old(epToVip), vip, row.endpoint)
      ensures nodeToVip == Renamed(table, old(nodeToVip), vip, row.nodeId)
    {
      EndpointSet(table, epToVip, vip, row);
      NodeSet(table, nodeToVip, vip, row);
      AddressSet(table, u32ToVip, vip, row);
      ReindexNode(vip, row.nodeId);
      hide EndpointsSound, NodesSound, AddressesExact, VipU32, Renamed;
      if vip in table {
        epToVip := epToVip - {table[vip].endpoint};
      }
      epToVip := epToVip[row.endpoint := vip];
      var u := VipU32(vip);
      if u.Some? {
        u32ToVip := u32ToVip[u.value := vip];
      }
    }

    method ReindexNode(vip: string, node: string)
      requires NodesSound(table, nodeToVip)
      modifies `nodeToVip
      ensures nodeToVip == Renamed(table, old(nodeToVip), vip, node)
    {
      assert "" !in nodeToVip;
      if vip in table && table[vip].nodeId != "" && node != table[vip].nodeId {
        nodeToVip := nodeToVip - {table[vip].nodeId};
      }
      if node != "" {
        nodeToVip := nodeToVip[node := vip];
      }
    }

    method Accept(vip: string, ep: Endpoint, node: Option<string>, now: nat)
      requires Valid() && (Held(vip, ep) ==> !Rejects(table[epToVip[ep]], node))
      modifies `table, `epToVip, `pathEpToVip, `nodeToVip, `u32ToVip, `revision, `bumps, `tombstones
      ensures Valid() && Accepted(old(table), old(epToVip), vip, ep, node, now, table, epToVip)
      ensures vip !in tombstones && Marked(old(table), vip, table[vip], revision)
      ensures vip !in old(table) ==> Unmeasured(table[vip], qualityInitial)
      ensures old(Held(vip, ep)) && Identified(node) ==> old(epToVip)[ep] in tombstones
    {
      hide Valid, Rejects, Moved, Renamed;
      if ep in epToVip && epToVip[ep] != vip {
        MovedAnyway(table, epToVip, vip, ep);
        Displace(ep, node, now);
      }
      Install(vip, ep, node, now);
    }

    /** Another row is known to sit at `ep`. */
    predicate Held(vip: string, ep: Endpoint)
      requires Valid()
      reads this
      ensures Held(vip, ep) ==> ep in epToVip && epToVip[ep] in table && epToVip[ep] != vip
    {
      ep in epToVip && epToVip[ep] != vip
    }

    /** Refused, changing nothing but expired tombstones, exactly if another row holds the endpoint and rejects the update.
        An identified predecessor at that endpoint leaves a tombstone. */
    method Update(vip: string, ep: Endpoint, node: Option<string>, now: nat)
      requires Valid()
      modifies this
      ensures Valid()
      ensures old(Held(vip, ep)) && Rejects(old(table)[old(epToVip)[ep]], node) ==>
                && table == old(table) && epToVip == old(epToVip) && pathEpToVip == old(pathEpToVip)
                && nodeToVip == old(nodeToVip) && u32ToVip == old(u32ToVip) && bumps == old(bumps)
      ensures !(old(Held(vip, ep)) && Rejects(old(table)[old(epToVip)[ep]], node)) ==>
                && Accepted(old(table), old(epToVip), vip, ep, node, now, table, epToVip)
                && vip !in tombstones && Marked(old(table), vip, table[vip], revision)
                && (vip !in old(table) ==> Unmeasured(table[vip], qualityInitial))
                && (old(Held(vip, ep)) && Identified(node) ==> old(epToVip)[ep] in tombstones)
    {
      hide Valid, Rejects, Accepted;
      if Age(now, lastPrune) >= TOMBSTONE_PRUNE_INTERVAL {
        PruneTombstones({}, now);
      }
      if Held(vip, ep) {
        var rejected := RejectsAlias(table[epToVip[ep]], node);
        if rejected {
          return;
        }
      }
      Accept(vip, ep, node, now);
    }

    /** Removes exactly the rows whose VIP is not an address in `myVip`'s subnet, and reports them. */
    method DrainVipsOutsideSubnet(myVip: string, prefix: nat, now: nat) returns (removed: seq<(string, Endpoint, string)>)
      requires Valid()
      modifies this
      ensures Valid()
      ensures ParseIpv4(myVip).None? ==> table == old(table) && removed == []
      ensures ParseIpv4(myVip).Some? ==>
                && table == old(table) - Outsiders(old(table), ParseIpv4(myVip).value, prefix)
                && Reports(old(table), removed, Outsiders(old(table), ParseIpv4(myVip).value, prefix))
    {
      hide Valid, Reports, InSubnet;
      removed := [];
      var anchor := ParseIpv4(myVip);
      if anchor.None? {
        return;
      }
      var victims := Outsiders(table, anchor.value, prefix);
      ghost var gone := {};
      ReportsNone(table);
      while victims != {}
        invariant Valid()
        invariant gone + victims == Outsiders(old(table), anchor.value, prefix) && gone !! victims
        invariant table == old(table) - gone
        invariant Reports(old(table), removed, gone)
        decreases |victims|
      {
        var vip :| vip in victims;
        ReportsMore(old(table), removed, gone, vip);
        removed := removed + [(vip, table[vip].endpoint, table[vip].nodeId)];
        Remove(vip, now);
        victims, gone := victims - {vip}, gone + {vip};
      }
    }

    /** Removes exactly the stale rows that were last seen more than `staleAge` ago. */
    method EvictOldStale(staleAge: nat, now: nat)
      requires Valid()
      modifies this
      ensures Valid()
      ensures table == map v | v in old(table) && !OldStale(old(table)[v], staleAge, now) :: old(table)[v]
      ensures bumps == old(bumps) + |old(table)| - |table|
    {
      hide Valid, OldStale;
      var victims := set v | v in table && OldStale(table[v], staleAge, now);
      while victims != {}
        invariant Valid()
        invariant victims <= table.Keys <= old(table).Keys
        invariant forall v :: v in old(table) && v !in table ==> OldStale(old(table)[v], staleAge, now)
        invariant forall v :: v in table ==> table[v] == old(table)[v] && (v in victims <==> OldStale(table[v], staleAge, now))
        invariant bumps == old(bumps) + |old(table)| - |table|
        decreases |victims|
      {
        var vip :| vip in victims;
        Remove(vip, now);
        victims := victims - {vip};
      }
    }

    method MarkStaleIfIdle(idle: nat, now: nat)
      requires Valid()
      modifies `table
      ensures Valid()
      ensures table == map v | v in old(table) ::
                         if Age(now, old(table)[v].lastSeen) > idle then old(table)[v].(state := Stale) else old(table)[v]
    {
      var marked := map v | v in table :: if Age(now, table[v].lastSeen) > idle && table[v].state != Stale
                                          then table[v].(state := Stale) else table[v];
      Replace(marked);
      assert PathsSound(marked, pathEpToVip);
    }

    /** Any change to the rows that keeps their endpoints, nodes and stamps keeps all but the path index. */
    method Replace(rows: Table)
      requires Valid() && SameRoutes(table, rows) && DirectIsPrimary(rows)
      modifies `table
      ensures table == rows
      ensures EndpointsSound(table, epToVip) && NodesSound(table, nodeToVip) && AddressesExact(table, u32ToVip)
      ensures DirectIsPrimary(table) && table.Keys !! tombstones.Keys && (bumps < U64 ==> Stamped(table, tombstones, bumps))
    {
      hide EndpointsSound, PathsSound, NodesSound, AddressesExact, Stamped;
      SameRoutesKeep(table, rows, epToVip, nodeToVip, u32ToVip);
      if bumps < U64 {
        SameRoutesStamped(table, rows, tombstones, bumps);
      }
      table := rows;
    }

    method ClearRelayPath(vip: string)
      requires Valid()
      modifies `table, `pathEpToVip
      ensures Valid()
      ensures table.Keys == old(table).Keys
      ensures vip in table && table[vip].paths.Some? ==> table[vip].paths.value.relay.None? && table[vip].paths.value.activeIdx != 1
      ensures forall v :: v in table ==> table[v] == if v == vip then old(table)[v].(paths := table[v].paths) else old(table)[v]
      ensures forall e :: e in pathEpToVip && pathEpToVip[e] == vip ==> table[vip].paths.value.relay != Some(e)
    {
      PathsWithout(table, pathEpToVip, vip, if vip in table then table[vip] else NewRow(0, 0, 0));
      if vip in table && table[vip].paths.Some? {
        var ps := table[vip].paths.value;
        ps := ps.(relay := None, activeIdx := if ps.activeIdx == 1 then 0 else ps.activeIdx);
        DirectSet(table, vip, table[vip].(paths := Some(ps)));
        Replace(table[vip := table[vip].(paths := Some(ps))]);
      }
      RebuildPathIndex(vip);
    }

    method StampRelayHop(vip: string, hop: Endpoint)
      requires Valid()
      modifies `table, `pathEpToVip
      ensures Valid()
      ensures vip !in old(table) ==> table == old(table) && pathEpToVip == old(pathEpToVip)
      ensures vip in old(table) ==> vip in table && StickyHop(table, vip) == Some(hop)
      ensures vip in table && hop != table[vip].endpoint ==> hop in pathEpToVip && pathEpToVip[hop] == vip
      ensures table.Keys == old(table).Keys
      ensures forall v :: v in table ==> table[v] == if v == vip then old(table)[v].(paths := table[v].paths) else old(table)[v]
    {
      if vip !in table {
        return;
      }
      var row := table[vip];
      var ps := if row.paths.Some? then row.paths.value else DirectOnly(row.endpoint);
      DirectSet(table, vip, row.(paths := Some(ps.(relay := Some(hop)))));
      PathsWithout(table, pathEpToVip, vip, row.(paths := Some(ps.(relay := Some(hop)))));
      Replace(table[vip := row.(paths := Some(ps.(relay := Some(hop))))]);
      RebuildPathIndex(vip);
    }

    /** Finds a row by its numeric address, whenever there is one. */
    method LookupByVipU32(u: nat) returns (ep: Option<Endpoint>)
      requires Valid()
      ensures forall v :: v in table && VipU32(v) == Some(u) ==> ep == Some(table[v].endpoint)
      ensures ep.Some? ==> exists v :: v in table && VipU32(v) == Some(u)
    {
      ep := if u in u32ToVip then Some(table[u32ToVip[u]].endpoint) else None;
    }

    method LookupEpByNode(node: string) returns (ep: Option<Endpoint>)
      requires Valid()
      ensures ep.Some? ==> exists v :: v in table && table[v].nodeId == node && table[v].endpoint == ep.value
    {
      ep := if node in nodeToVip then Some(table[nodeToVip[node]].endpoint) else None;
    }

    /** Whatever row a datagram's source is put down to really uses that endpoint. */
    method VipForDataEndpoint(ep: Endpoint, ignored: Option<Endpoint>) returns (vip: Option<string>)
      requires Valid()
      ensures vip.Some? ==> vip.value in table && (table[vip.value].endpoint == ep || Secondary(table[vip.value], ep))
      ensures ignored == Some(ep) ==> vip.None?
      ensures ignored != Some(ep) && ep in epToVip ==> vip.Some? && table[vip.value].endpoint == ep
    {
      vip := if ignored == Some(ep) then None
             else if ep in epToVip then Some(epToVip[ep])
             else if ep in pathEpToVip then Some(pathEpToVip[ep]) else None;
    }
  }

  /** The endpoint index is not complete: of two unidentified peers behind one endpoint the second loses its entry when
      the first moves away. */
  method SharedEndpointIsForgotten(first: string, second: string, shared: Endpoint, next: Endpoint, now: nat)
    returns (rt: RoutingTable)
    requires first != second && shared != next
    ensures rt.Valid()
    ensures second in rt.table && rt.table[second].endpoint == shared && shared !in rt.epToVip
  {
    hide RoutingTable.Valid, Marked, Refreshed;
    rt := new RoutingTable(now, 50);
    rt.Update(first, shared, None, now);
    assert rt.epToVip == map[shared := first] && rt.table[first].nodeId == "";
    rt.Update(second, shared, None, now);
    assert rt.epToVip == map[shared := second] && first in rt.table - {second} && rt.table[first].endpoint == shared;
    rt.Update(first, next, None, now);
    assert second in rt.table - {first};
  }

  /** At whole octets the prefix compares octets; 32 bits or more compare all, none compare nothing. */
  lemma OctetSubnets(a: Ipv4, b: Ipv4, prefix: nat)
    ensures SameSubnet(a, b, 0)
    ensures SameSubnet(a, b, 8) <==> a.a == b.a
    ensures SameSubnet(a, b, 16) <==> a.a == b.a && a.b == b.b
    ensures SameSubnet(a, b, 24) <==> a.a == b.a && a.b == b.b && a.c == b.c
    ensures prefix >= 32 ==> (SameSubnet(a, b, prefix) <==> a == b)
  {
    hide ToU32;
    DropOctets(a);
    DropOctets(b);
    if ToU32(a) == ToU32(b) {
      ToU32Injective(a, b);
    }
  }

  lemma DropOctets(ip: Ipv4)
    ensures Network(ToU32(ip), 0) == ToU32(ip)
    ensures Network(ToU32(ip), 8) == (ip.a * 0x100 + ip.b) * 0x100 + ip.c
    ensures Network(ToU32(ip), 16) == ip.a * 0x100 + ip.b
    ensures Network(ToU32(ip), 24) == ip.a
    ensures Network(ToU32(ip), 32) == 0
  {
    var n := ToU32(ip);
    assert n / 0x100 == (ip.a * 0x100 + ip.b) * 0x100 + ip.c;
    assert n / 0x100 / 0x100 == ip.a * 0x100 + ip.b && n / 0x100 / 0x100 / 0x100 == ip.a;
    hide ToU32;
    DropOctet(n, 0);
    DropOctet(n, 8);
    DropOctet(n, 16);
    DropOctet(n, 24);
    DropOctet(n / 0x100, 0);
    DropOctet(n / 0x100, 8);
    DropOctet(n / 0x100, 16);
    DropOctet(n / 0x100 / 0x100, 0);
    DropOctet(n / 0x100 / 0x100, 8);
    DropOctet(n / 0x100 / 0x100 / 0x100, 0);
  }

  lemma DropOctet(n: nat, host: nat)
    ensures Network(n, host + 8) == Network(n / 0x100, host)
  {
    var h := n / 2 / 2 / 2 / 2;
    assert Network(n, host + 8) == Network(n / 2, host + 7) == Network(n / 2 / 2, host + 6);
    assert Network(n / 2 / 2, host + 6) == Network(n / 2 / 2 / 2, host + 5) == Network(h, host + 4);
    assert Network(h, host + 4) == Network(h / 2, host + 3) == Network(h / 2 / 2, host + 2);
    assert Network(h / 2 / 2, host + 2) == Network(h / 2 / 2 / 2, host + 1) == Network(h / 2 / 2 / 2 / 2, host);
  }

  /** A longer prefix never joins what a shorter one separates. */
  lemma SubnetsNest(a: Ipv4, b: Ipv4, prefix: nat)
    requires SameSubnet(a, b, prefix + 1)
    ensures SameSubnet(a, b, prefix)
  {
    hide ToU32;
    if prefix < 32 {
      OneBitLess(ToU32(a), 31 - prefix);
      OneBitLess(ToU32(b), 31 - prefix);
    }
  }

  lemma {:induction false} OneBitLess(n: nat, host: nat)
    ensures Network(n, host + 1) == Network(n, host) / 2
  {
    if host > 0 {
      OneBitLess(n / 2, host - 1);
    }
  }

  predicate InSubnet(vip: string, anchor: Ipv4, prefix: nat) {
    ParseIpv4(vip).Some? && SameSubnet(anchor, ParseIpv4(vip).value, prefix)
  }

  function Outsiders(t: Table, anchor: Ipv4, prefix: nat): set<string> {
    set v | v in t && !InSubnet(v, anchor, prefix)
  }

  /** The report lists each row that is gone once, with its endpoint and node. */
  ghost predicate Reports(t: Table, removed: seq<(string, Endpoint, string)>, gone: set<string>) {
    && |removed| == |gone| && gone <= t.Keys
    && forall v :: v in gone ==> (v, t[v].endpoint, t[v].nodeId) in removed
  }

  lemma ReportsNone(t: Table)
    ensures Reports(t, [], {})
  {
  }

  lemma ReportsMore(t: Table, removed: seq<(string, Endpoint, string)>, gone: set<string>, vip: string)
    requires Reports(t, removed, gone) && vip in t && vip !in gone
    ensures Reports(t, removed + [(vip, t[vip].endpoint, t[vip].nodeId)], gone + {vip})
  {
  }

  predicate OldStale(row: Row, staleAge: nat, now: nat) {
    row.state.Stale? && Age(now, row.lastSeen) > staleAge
  }

  function StickyHop(t: Table, vip: string): Option<Endpoint> {
    if vip in t && t[vip].paths.Some? then t[vip].paths.value.relay else None
  }

  lemma StampChanged(t: Table, tombs: Tombstones, bumps: nat, vip: string, row: Row)
    requires bumps < U64 ==> Stamped(t, tombs, bumps)
    ensures bumps + 1 < U64 ==> Stamped(t[vip := row.(stamp := bumps + 1)], tombs - {vip}, bumps + 1)
  {
    if bumps + 1 < U64 {
      RowStamped(t, tombs, bumps, vip, row.(stamp := bumps + 1));
    }
  }
}
