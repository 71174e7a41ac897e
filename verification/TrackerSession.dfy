/** What a tracker session has sent and received, and what that says about its connection ids and open requests
    (`DecentralizedState` in src/net/decentralized.rs; the protocol is that of BEP 15).  Times are in milliseconds. */
module TrackerSession {
  import opened Wrappers
  import opened TrackerReplies

  const CONNECTION_TTL: nat := 55_000
  const MAX_HTTP_IN_FLIGHT: nat := 4

  type Addr = Peer

  datatype Kind = Connect | Announce

  datatype PendingOp = PendingOp(kind: Kind, tracker: Addr, created: nat)

  datatype Connection = Connection(id: nat, expires: nat)

  datatype Scheme = Udp | Http | Https

  datatype Slot = Slot(
    url: string,
    scheme: Scheme,
    addrs: seq<Addr>,
    useIdx: nat,
    lastAnnounce: Option<nat>,
    interval: nat,
    httpInFlight: bool,
    httpSince: Option<nat>)

  datatype Event =
    | SentConnect(to: Addr, txn: nat, at: nat)
    | GotConnection(from: Addr, txn: nat, id: nat, at: nat)
    | SentAnnounce(to: Addr, txn: nat, id: nat, at: nat)

  type Trace = seq<Event>

  // ---------- connection ids ----------

  /** The session asked `a` for a connection as `txn`, and later `a` granted `id` in answer, at time `at`. */
  ghost predicate Granted(trace: Trace, a: Addr, id: nat, at: nat) {
    exists i, j, txn, asked :: 0 <= i < j < |trace| && Grant(trace, i, j, a, txn, asked, id, at)
  }

  predicate Grant(trace: Trace, i: nat, j: nat, a: Addr, txn: nat, asked: nat, id: nat, at: nat)
    requires i < |trace| && j < |trace|
  {
    trace[i] == SentConnect(a, txn, asked) && trace[j] == GotConnection(a, txn, id, at)
  }

  /** Every announce carries an id that its address granted less than 55 seconds before. */
  ghost predicate Justified(trace: Trace) {
    forall k :: 0 <= k < |trace| && trace[k].SentAnnounce? ==> Fresh(trace[..k], trace[k].to, trace[k].id, trace[k].at)
  }

  ghost predicate Fresh(trace: Trace, a: Addr, id: nat, now: nat) {
    exists at: nat :: at <= now < at + CONNECTION_TTL && Granted(trace, a, id, at)
  }

  ghost predicate PendingSent(trace: Trace, pending: map<nat, PendingOp>) {
    forall txn :: txn in pending && pending[txn].kind.Connect? ==>
      SentConnect(pending[txn].tracker, txn, pending[txn].created) in trace
  }

  ghost predicate ConnectionsGranted(trace: Trace, connections: map<Addr, Connection>, clock: nat) {
    forall a :: a in connections ==>
      var c := connections[a];
      CONNECTION_TTL <= c.expires <= clock + CONNECTION_TTL && Granted(trace, a, c.id, c.expires - CONNECTION_TTL)
  }

  lemma GrantedLater(trace: Trace, e: Event, a: Addr, id: nat, at: nat)
    requires Granted(trace, a, id, at)
    ensures Granted(trace + [e], a, id, at)
  {
    var i, j, txn, asked :| 0 <= i < j < |trace| && Grant(trace, i, j, a, txn, asked, id, at);
    assert Grant(trace + [e], i, j, a, txn, asked, id, at);
  }

  lemma JustifiedMore(trace: Trace, e: Event)
    requires Justified(trace) && (e.SentAnnounce? ==> Fresh(trace, e.to, e.id, e.at))
    ensures Justified(trace + [e])
  {
    hide Fresh;
    forall k | 0 <= k < |trace + [e]| && (trace + [e])[k].SentAnnounce?
      ensures Fresh((trace + [e])[..k], (trace + [e])[k].to, (trace + [e])[k].id, (trace + [e])[k].at)
    {
      assert (trace + [e])[..k] == trace[..k];
    }
    assert trace[..|trace|] == trace;
  }

  lemma TraceGrows(trace: Trace, e: Event, pending: map<nat, PendingOp>, connections: map<Addr, Connection>,
                   clock: nat, now: nat)
    requires PendingSent(trace, pending) && ConnectionsGranted(trace, connections, clock) && clock <= now
    ensures PendingSent(trace + [e], pending) && ConnectionsGranted(trace + [e], connections, now)
  {
    hide Granted;
    forall a | a in connections
      ensures Granted(trace + [e], a, connections[a].id, connections[a].expires - CONNECTION_TTL)
    {
      GrantedLater(trace, e, a, connections[a].id, connections[a].expires - CONNECTION_TTL);
    }
  }

  lemma AnswerGrants(trace: Trace, a: Addr, txn: nat, asked: nat, id: nat, at: nat)
    requires SentConnect(a, txn, asked) in trace
    ensures Granted(trace + [GotConnection(a, txn, id, at)], a, id, at)
  {
    var i :| 0 <= i < |trace| && trace[i] == SentConnect(a, txn, asked);
    assert Grant(trace + [GotConnection(a, txn, id, at)], i, |trace|, a, txn, asked, id, at);
  }

  // ---------- open requests ----------

  ghost predicate OneEach(pending: map<nat, PendingOp>) {
    forall s, t :: s in pending && t in pending && pending[s].tracker == pending[t].tracker && pending[s].kind == pending[t].kind
      ==> s == t
  }

  function Addresses(slots: seq<Slot>): set<Addr> {
    if slots == [] then {} else (set a | a in slots[0].addrs) + Addresses(slots[1..])
  }

  lemma {:induction false} AddressesContain(slots: seq<Slot>, a: Addr)
    ensures a in Addresses(slots) <==> exists i :: 0 <= i < |slots| && a in slots[i].addrs
  {
    if slots != [] {
      AddressesContain(slots[1..], a);
      if a in Addresses(slots[1..]) {
        var i :| 0 <= i < |slots[1..]| && a in slots[1..][i].addrs;
        assert slots[i + 1] == slots[1..][i];
      }
      if i :| 0 <= i < |slots| && a in slots[i].addrs {
        assert i > 0 ==> a in slots[1..][i - 1].addrs;
      }
    }
  }

  ghost predicate Resolved(pending: map<nat, PendingOp>, slots: seq<Slot>) {
    forall t :: t in pending ==> pending[t].tracker in Addresses(slots)
  }

  function Of(pending: map<nat, PendingOp>, kind: Kind): set<nat> {
    set t | t in pending && pending[t].kind == kind
  }

  /** At most one connect and one announce are open per address, so their number is at most twice the resolved ones. */
  lemma PendingBounded(pending: map<nat, PendingOp>, slots: seq<Slot>)
    requires OneEach(pending) && Resolved(pending, slots)
    ensures |pending| <= 2 * |Addresses(slots)|
  {
    var c, a := Of(pending, Connect), Of(pending, Announce);
    assert pending.Keys == c + a;
    OpenPerAddress(pending, c, Connect, Addresses(slots));
    OpenPerAddress(pending, a, Announce, Addresses(slots));
  }

  lemma {:induction false} OpenPerAddress(pending: map<nat, PendingOp>, open: set<nat>, kind: Kind, addrs: set<Addr>)
    requires OneEach(pending)
    requires forall t :: t in open ==> t in pending && pending[t].kind == kind && pending[t].tracker in addrs
    ensures |open| <= |addrs|
    decreases |open|
  {
    if open != {} {
      var t :| t in open;
      OpenPerAddress(pending, open - {t}, kind, addrs - {pending[t].tracker});
    }
  }

  // ---------- HTTP requests in flight ----------

  function InFlight(slots: seq<Slot>): nat {
    if slots == [] then 0 else InFlight(slots[..|slots| - 1]) + if slots[|slots| - 1].httpInFlight then 1 else 0
  }

  lemma {:induction false} InFlightChanged(slots: seq<Slot>, i: nat, s: Slot)
    requires i < |slots|
    ensures InFlight(slots[i := s]) == InFlight(slots) + (if s.httpInFlight then 1 else 0) - if slots[i].httpInFlight then 1 else 0
  {
    var n := |slots| - 1;
    if i < n {
      assert slots[i := s][..n] == slots[..n][i := s];
      InFlightChanged(slots[..n], i, s);
    } else {
      assert slots[i := s][..n] == slots[..n];
    }
  }
}
