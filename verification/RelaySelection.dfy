/** One-hop relay selection over the routing table (`hop_usable` to `select_broadcast_relay_hop` in src/routing.rs). */
module RelaySelection {
  import opened Wrappers
  import opened Text
  import opened RouteIndexes
  import opened Routing

  /** Failover thresholds; the defaults are 35, 0.12 and 50 ms. */
  datatype Failover = Failover(qualityMin: int, lossMax: real, jitterMax: real)

  /** What a hop is wanted for: the destination, or none for a broadcast, our own VIP and an endpoint to avoid. */
  datatype Query = Query(dest: Option<string>, me: string, exclude: Option<Endpoint>)

  predicate ShouldRelay(row: Row, fo: Failover) {
    row.quality < fo.qualityMin || row.state.Degraded? || row.state.Stale? || row.loss > fo.lossMax || row.jitter > fo.jitterMax
  }

  predicate HopUsable(t: Table, idx: map<Endpoint, string>, fo: Failover, q: Query, ep: Endpoint) {
    if q.exclude == Some(ep) || ep !in idx then false
    else
      var hop := idx[ep];
      if hop == q.me || q.dest == Some(hop) then false
      else if q.dest.Some? && q.dest.value in t && t[q.dest.value].endpoint == ep then false
      else hop in t && t[hop].failStreak < 3 && !ShouldRelay(t[hop], fo)
  }

  /** Rows that the scan considers: not us, not the destination, at a usable endpoint. */
  predicate Eligible(t: Table, idx: map<Endpoint, string>, fo: Failover, q: Query, v: string) {
    v in t && v != q.me && q.dest != Some(v) && HopUsable(t, idx, fo, q, t[v].endpoint)
  }

  // ---------- the ranking ----------

  /** Round-trip times compare as numbers, a negative one standing for infinity. */
  predicate Faster(a: real, b: real) {
    a >= 0.0 && (b < 0.0 || a < b)
  }

  predicate SameRtt(a: real, b: real) {
    a == b || (a < 0.0 && b < 0.0)
  }

  /** `v` goes before `w`: by quality, then round-trip time, then VIP. */
  predicate Outranks(v: string, x: Row, w: string, y: Row) {
    || x.quality > y.quality
    || (x.quality == y.quality && (Faster(x.rtt, y.rtt) || (SameRtt(x.rtt, y.rtt) && Less(v, w))))
  }

  lemma OutranksTotal(v: string, x: Row, w: string, y: Row)
    ensures v != w ==> Outranks(v, x, w, y) || Outranks(w, y, v, x)
    ensures !(Outranks(v, x, w, y) && Outranks(w, y, v, x))
  {
    LessTotal(v, w);
    hide Less;
  }

  lemma OutranksTransitive(u: string, x: Row, v: string, y: Row, w: string, z: Row)
    requires Outranks(u, x, v, y) && Outranks(v, y, w, z)
    ensures Outranks(u, x, w, z)
  {
    if Less(u, v) && Less(v, w) {
      LessTransitive(u, v, w);
    }
    hide Less;
  }

  /** The eligible row that goes before every other one. */
  ghost predicate Best(t: Table, idx: map<Endpoint, string>, fo: Failover, q: Query, v: string) {
    && Eligible(t, idx, fo, q, v)
    && forall w :: Eligible(t, idx, fo, q, w) && w != v ==> Outranks(v, t[v], w, t[w])
  }

  /** There is one best row, so the choice does not depend on the order in which the table is scanned. */
  lemma BestUnique(t: Table, idx: map<Endpoint, string>, fo: Failover, q: Query, v: string, w: string)
    requires Best(t, idx, fo, q, v) && Best(t, idx, fo, q, w)
    ensures v == w
  {
    OutranksTotal(v, t[v], w, t[w]);
  }

  /** A usable endpoint has an eligible row: the one that the index names.  This needs the index to be sound. */
  lemma UsableHasRow(t: Table, idx: map<Endpoint, string>, fo: Failover, q: Query, ep: Endpoint)
    requires EndpointsSound(t, idx) && HopUsable(t, idx, fo, q, ep)
    ensures ep in idx && Eligible(t, idx, fo, q, idx[ep]) && t[idx[ep]].endpoint == ep
  {
    hide ShouldRelay;
  }

  /** Without a sound index the row behind a usable endpoint can sit elsewhere, out of the scan's reach. */
  lemma UnsoundIndexHidesHops(fo: Failover)
    ensures exists t: Table, idx: map<Endpoint, string>, q: Query, ep: Endpoint ::
              HopUsable(t, idx, fo, q, ep) && forall v :: !Eligible(t, idx, fo, q, v)
  {
    var row := NewRow(2, 0, fo.qualityMin).(loss := fo.lossMax, jitter := fo.jitterMax);
    var t: Table, idx, q := map["a" := row], map[1 := "a"], Query(None, "me", None);
    assert HopUsable(t, idx, fo, q, 1);
    assert forall v :: v in t ==> t[v].endpoint !in idx;
    assert forall v :: !Eligible(t, idx, fo, q, v);
  }

  // ---------- selection ----------

  /** Scans the table in any order. */
  method BestUsablePeerHop(rt: RoutingTable, fo: Failover, q: Query) returns (hop: Option<Endpoint>)
    requires rt.Valid()
    ensures hop.Some? ==> exists v :: Best(rt.table, rt.epToVip, fo, q, v) && rt.table[v].endpoint == hop.value
    ensures hop.None? <==> forall ep :: ep in rt.epToVip ==> !HopUsable(rt.table, rt.epToVip, fo, q, ep)
  {
    hide HopUsable, Outranks;
    var t, idx := rt.table, rt.epToVip;
    var best: Option<string> := None;
    var todo := t.Keys;
    while todo != {}
      invariant todo <= t.Keys
      invariant best.Some? ==> best.value !in todo && Eligible(t, idx, fo, q, best.value)
      invariant forall w :: Eligible(t, idx, fo, q, w) && w !in todo ==>
                  best.Some? && (w == best.value || Outranks(best.value, t[best.value], w, t[w]))
      decreases |todo|
    {
      var v :| v in todo;
      if Eligible(t, idx, fo, q, v) && (best.None? || Outranks(v, t[v], best.value, t[best.value])) {
        Overtakes(t, idx, fo, q, todo, best, v);
        best := Some(v);
      } else if best.Some? {
        OutranksTotal(best.value, t[best.value], v, t[v]);
      }
      todo := todo - {v};
    }
    hop := if best.Some? then Some(t[best.value].endpoint) else None;
    NothingUsable(t, idx, fo, q);
    assert best.Some? ==> Best(t, idx, fo, q, best.value);
  }

  /** The row that outranks the best so far outranks all rows seen so far. */
  lemma Overtakes(t: Table, idx: map<Endpoint, string>, fo: Failover, q: Query, todo: set<string>, best: Option<string>, v: string)
    requires v in t && (best.Some? ==> best.value in t && Outranks(v, t[v], best.value, t[best.value]))
    requires forall w :: Eligible(t, idx, fo, q, w) && w !in todo ==>
               best.Some? && (w == best.value || Outranks(best.value, t[best.value], w, t[w]))
    ensures forall w :: Eligible(t, idx, fo, q, w) && w !in todo ==> Outranks(v, t[v], w, t[w])
  {
    hide HopUsable, Outranks;
    forall w | Eligible(t, idx, fo, q, w) && w !in todo
      ensures Outranks(v, t[v], w, t[w])
    {
      if w != best.value {
        OutranksTransitive(v, t[v], best.value, t[best.value], w, t[w]);
      }
    }
  }

  lemma NothingUsable(t: Table, idx: map<Endpoint, string>, fo: Failover, q: Query)
    requires EndpointsSound(t, idx)
    ensures (forall v :: !Eligible(t, idx, fo, q, v)) <==> forall ep :: ep in idx ==> !HopUsable(t, idx, fo, q, ep)
  {
    forall ep | ep in idx && HopUsable(t, idx, fo, q, ep)
      ensures Eligible(t, idx, fo, q, idx[ep])
    {
      UsableHasRow(t, idx, fo, q, ep);
    }
    forall v | Eligible(t, idx, fo, q, v)
      ensures t[v].endpoint in idx && HopUsable(t, idx, fo, q, t[v].endpoint)
    {
    }
  }

  predicate Healthy(row: Row, fo: Failover) {
    && row.failStreak < 3 && row.quality >= fo.qualityMin && (row.state.Candidate? || row.state.Active?)
    && row.loss <= fo.lossMax && row.jitter <= fo.jitterMax
  }

  /** A hop is usable exactly if it is not the excluded endpoint or the destination's, and the index names a healthy row for
      it that is neither us nor the destination; that row sits there. */
  lemma UsableMeans(t: Table, idx: map<Endpoint, string>, fo: Failover, q: Query, ep: Endpoint)
    requires EndpointsSound(t, idx)
    ensures HopUsable(t, idx, fo, q, ep) <==>
              && q.exclude != Some(ep)
              && (forall d :: q.dest == Some(d) && d in t ==> t[d].endpoint != ep)
              && exists v :: v in t && t[v].endpoint == ep && ep in idx && idx[ep] == v
                             && v != q.me && q.dest != Some(v) && Healthy(t[v], fo)
  {
    if HopUsable(t, idx, fo, q, ep) {
      assert idx[ep] in t && Healthy(t[idx[ep]], fo);
    }
  }

  method SelectRelayEndpoint(rt: RoutingTable, fo: Failover, dest: string, me: string, exclude: Option<Endpoint>)
    returns (hop: Option<Endpoint>)
    requires rt.Valid()
    ensures var q := Query(Some(dest), me, exclude);
            var sticky := StickyHop(rt.table, dest);
            if sticky.Some? && HopUsable(rt.table, rt.epToVip, fo, q, sticky.value) then hop == sticky
            else if hop.Some? then exists v :: Best(rt.table, rt.epToVip, fo, q, v) && rt.table[v].endpoint == hop.value
            else forall ep :: ep in rt.epToVip ==> !HopUsable(rt.table, rt.epToVip, fo, q, ep)
    ensures hop.Some? ==> HopUsable(rt.table, rt.epToVip, fo, Query(Some(dest), me, exclude), hop.value)
  {
    hide HopUsable, Outranks;
    var q := Query(Some(dest), me, exclude);
    var sticky := StickyHop(rt.table, dest);
    if sticky.Some? && HopUsable(rt.table, rt.epToVip, fo, q, sticky.value) {
      return sticky;
    }
    hop := BestUsablePeerHop(rt, fo, q);
  }

  method SelectBroadcastRelayHop(rt: RoutingTable, fo: Failover, me: string, exclude: Option<Endpoint>)
    returns (hop: Option<Endpoint>)
    requires rt.Valid()
    ensures var q := Query(None, me, exclude);
            if hop.Some? then exists v :: Best(rt.table, rt.epToVip, fo, q, v) && rt.table[v].endpoint == hop.value
            else forall ep :: ep in rt.epToVip ==> !HopUsable(rt.table, rt.epToVip, fo, q, ep)
  {
    hop := BestUsablePeerHop(rt, fo, Query(None, me, exclude));
  }
}
