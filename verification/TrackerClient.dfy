/** The tracker client (`DecentralizedState` in src/net/decentralized.rs): connect, announce, and HTTP announces, over one
    session after another.  Random transaction ids, the outcome of sending and the clock are parameters. */
module TrackerClient {
  import opened Wrappers
  import opened Bencode
  import opened TrackerReplies
  import opened TrackerSession

  const PENDING_TTL: nat := 20_000
  const HTTP_PENDING_TTL: nat := 20_000
  const MAX_REANNOUNCE_SECS: nat := 300
  const MIN_ANNOUNCE_SECS: nat := 60
  const MAX_ACTIVE_TRACKERS: nat := 32
  const U64: nat := 0x1_0000_0000_0000_0000

  predicate Due(s: Slot, announceSecs: nat, now: nat) {
    var wait := Min(Max(s.interval, announceSecs), MAX_REANNOUNCE_SECS);
    s.lastAnnounce.None? || Age(now, s.lastAnnounce.value) >= wait * 1000
  }

  /** A slot waits at least a minute after an answer, and points at one of its addresses if it has any. */
  predicate SlotOk(s: Slot) {
    s.interval >= MIN_ANNOUNCE_SECS && (s.useIdx == 0 || s.useIdx < |s.addrs|)
  }

  ghost predicate SlotsOk(slots: seq<Slot>) {
    forall i :: 0 <= i < |slots| ==> SlotOk(slots[i])
  }

  /** A slot is due at the latest five minutes after its last announce was answered, and never within a minute. */
  lemma DueBetween(s: Slot, announceSecs: nat, now: nat)
    requires announceSecs >= MIN_ANNOUNCE_SECS && s.lastAnnounce.Some?
    ensures Age(now, s.lastAnnounce.value) >= MAX_REANNOUNCE_SECS * 1000 ==> Due(s, announceSecs, now)
    ensures Age(now, s.lastAnnounce.value) < MIN_ANNOUNCE_SECS * 1000 ==> !Due(s, announceSecs, now)
  {
  }

  function CurrentAddr(s: Slot): Option<Addr> {
    if s.addrs == [] then None else Some(s.addrs[s.useIdx % |s.addrs|])
  }

  function Rotated(s: Slot): Slot {
    if s.addrs == [] then s else s.(useIdx := (s.useIdx + 1) % |s.addrs|)
  }

  function RotatedTimes(s: Slot, n: nat): Slot {
    if n == 0 then s else Rotated(RotatedTimes(s, n - 1))
  }

  lemma {:induction false} RotationCounts(s: Slot, n: nat)
    requires s.useIdx < |s.addrs| && n <= |s.addrs|
    ensures var r, at := RotatedTimes(s, n), s.useIdx + n;
            r.addrs == s.addrs && r.useIdx == if at < |s.addrs| then at else at - |s.addrs|
  {
    if n > 0 {
      RotationCounts(s, n - 1);
      NextIndex(RotatedTimes(s, n - 1).useIdx, |s.addrs|);
    }
  }

  lemma NextIndex(i: nat, m: nat)
    requires i < m
    ensures (i + 1) % m == (if i + 1 < m then i + 1 else 0) && i % m == i
  {
  }

  /** Addresses that cannot be sent to are tried in turn: every resolved address becomes the current one within one round.
      Only a failed send rotates, so an address that takes requests and never answers keeps its slot. */
  lemma RotationReachesAll(s: Slot, k: nat)
    requires SlotOk(s) && k < |s.addrs|
    ensures exists n: nat :: n < |s.addrs| && CurrentAddr(RotatedTimes(s, n)) == Some(s.addrs[k])
  {
    var n := if s.useIdx <= k then k - s.useIdx else k + |s.addrs| - s.useIdx;
    RotationCounts(s, n);
    NextIndex(k, |s.addrs|);
    assert CurrentAddr(RotatedTimes(s, n)) == Some(s.addrs[k]);
  }

  function NewSlot(url: string, scheme: Scheme, announceSecs: nat): Slot {
    Slot(url, scheme, [], 0, None, announceSecs, false, None)
  }

  method MakeSlots(trackers: seq<(string, Scheme)>, announceSecs: nat) returns (made: seq<Slot>)
    ensures |made| == Min(|trackers|, MAX_ACTIVE_TRACKERS) && InFlight(made) == 0
    ensures forall i :: 0 <= i < |made| ==> made[i] == NewSlot(trackers[i].0, trackers[i].1, announceSecs)
  {
    made := [];
    for k := 0 to Min(|trackers|, MAX_ACTIVE_TRACKERS)
      invariant |made| == k && InFlight(made) == 0
      invariant forall i :: 0 <= i < k ==> made[i] == NewSlot(trackers[i].0, trackers[i].1, announceSecs)
    {
      var slot := NewSlot(trackers[k].0, trackers[k].1, announceSecs);
      assert (made + [slot])[..k] == made;
      made := made + [slot];
    }
  }

  /** An HTTP announce handed out for sending. */
  datatype HttpWork = HttpWork(slot: nat, generation: nat)

  class DecentralizedState {
    var active: bool
    var generation: nat
    var announceSecs: nat
    var slots: seq<Slot>
    var isJoiner: bool
    var hadJoinResponse: bool
    var pending: map<nat, PendingOp>
    var connections: map<Addr, Connection>
    var discovered: map<Addr, nat>
    // What this session sent and was granted, the time of the last of it, and how often a session began or ended.
    ghost var trace: Trace
    ghost var clock: nat
    ghost var turns: nat

    ghost predicate Valid()
      reads this
    {
      && Justified(trace)
      && PendingSent(trace, pending)
      && ConnectionsGranted(trace, connections, clock)
      && OneEach(pending) && Resolved(pending, slots)
      && InFlight(slots) <= MAX_HTTP_IN_FLIGHT
      && SlotsOk(slots) && (active ==> announceSecs >= MIN_ANNOUNCE_SECS)
      && generation == turns % U64
    }

    constructor ()
      ensures Valid() && !active && turns == 0
    {
      active, generation, announceSecs, slots, isJoiner, hadJoinResponse := false, 0, 0, [], false, false;
      pending, connections, discovered := map[], map[], map[];
      trace, clock, turns := [], 0, 0;
    }

    method NextGeneration()
      requires generation == turns % U64
      modifies `generation, `turns
      ensures turns == old(turns) + 1 && generation == turns % U64
    {
      generation, turns := if generation + 1 == U64 then 0 else generation + 1, turns + 1;
    }

    /** `trackers` are the configured ones whose address could be parsed. */
    method Start(trackers: seq<(string, Scheme)>, announceSecs: nat, isJoiner: bool, now: nat)
      requires Valid()
      modifies this
      ensures Valid() && active && trace == [] && pending == map[] && connections == map[]
      ensures turns == old(turns) + 1 && |slots| == Min(|trackers|, MAX_ACTIVE_TRACKERS)
      ensures forall i :: 0 <= i < |slots| ==> slots[i] == NewSlot(trackers[i].0, trackers[i].1, Max(announceSecs, MIN_ANNOUNCE_SECS))
    {
      hide Justified, PendingSent, ConnectionsGranted, OneEach, Resolved, InFlight;
      NextGeneration();
      active, this.announceSecs, this.isJoiner, hadJoinResponse := true, Max(announceSecs, MIN_ANNOUNCE_SECS), isJoiner, false;
      var made := MakeSlots(trackers, Max(announceSecs, MIN_ANNOUNCE_SECS));
      slots, pending, connections, discovered := made, map[], map[], map[];
      trace, clock := [], now;
      EmptySession(slots, now);
    }

    method Stop()
      requires Valid()
      modifies this
      ensures Valid() && !active && slots == [] && pending == map[] && connections == map[] && trace == []
      ensures turns == old(turns) + 1
    {
      NextGeneration();
      active, announceSecs, slots, isJoiner, hadJoinResponse := false, 0, [], false, false;
      pending, connections, discovered := map[], map[], map[];
      trace := [];
    }

    /** Resolved addresses only accumulate during a session. */
    method AddResolvedAddrs(idx: nat, addrs: seq<Addr>)
      requires Valid()
      modifies `slots
      ensures Valid() && |slots| == |old(slots)|
      ensures idx < |slots| ==>
                && old(slots)[idx].addrs <= slots[idx].addrs
                && forall a :: a in slots[idx].addrs <==> a in old(slots)[idx].addrs || a in addrs
      ensures forall i :: 0 <= i < |slots| && i != idx ==> slots[i] == old(slots)[i]
    {
      if idx < |slots| {
        var known := slots[idx].addrs;
        for k := 0 to |addrs|
          invariant slots[idx].addrs <= known
          invariant forall a :: a in known <==> a in slots[idx].addrs || a in addrs[..k]
        {
          assert addrs[..k + 1] == addrs[..k] + [addrs[k]];
          if addrs[k] !in known {
            known := known + [addrs[k]];
          }
        }
        assert addrs[..|addrs|] == addrs;
        SetSlot(idx, slots[idx].(addrs := known));
      }
    }

    /** A change to one slot that keeps its addresses and starts no HTTP request keeps everything. */
    method SetSlot(idx: nat, s: Slot)
      requires Valid() && idx < |slots| && (forall a :: a in slots[idx].addrs ==> a in s.addrs)
      requires s.httpInFlight ==> slots[idx].httpInFlight || InFlight(slots) < MAX_HTTP_IN_FLIGHT
      requires SlotOk(slots[idx]) ==> SlotOk(s)
      modifies `slots
      ensures Valid() && slots == old(slots)[idx := s]
    {
      hide Justified, PendingSent, ConnectionsGranted, OneEach;
      InFlightChanged(slots, idx, s);
      ResolvedMore(pending, slots, idx, s);
      slots := slots[idx := s];
    }

    method SweepExpiredPending(now: nat)
      requires Valid()
      modifies `pending
      ensures Valid()
      ensures pending == map t | t in old(pending) && Age(now, old(pending)[t].created) < PENDING_TTL :: old(pending)[t]
    {
      pending := map t | t in pending && Age(now, pending[t].created) < PENDING_TTL :: pending[t];
    }

    /** Asks for a connection id unless a request is still open; an address that cannot be sent to is rotated away. */
    method SendConnect(idx: nat, tracker: Addr, now: nat, txn: nat, delivered: bool)
      requires Valid() && idx < |slots| && tracker in slots[idx].addrs && clock <= now
      requires !Open(pending, tracker, Connect)
      modifies `slots, `pending, `trace, `clock
      ensures Valid() && clock == now && |slots| == |old(slots)|
      ensures connections == old(connections)
      ensures trace == if delivered then old(trace) + [SentConnect(tracker, txn, now)] else old(trace)
      ensures pending == if delivered then old(pending)[txn := PendingOp(Connect, tracker, now)] else old(pending) - {txn}
      ensures slots == if delivered then old(slots) else old(slots)[idx := Rotated(old(slots)[idx])]
    {
      hide Justified, ConnectionsGranted, PendingSent, OneEach, Resolved;
      Later(trace, connections, clock, now);
      clock := now;
      OneMore(pending, slots, idx, txn, PendingOp(Connect, tracker, now));
      if delivered {
        TraceGrows(trace, SentConnect(tracker, txn, now), pending, connections, now, now);
        JustifiedMore(trace, SentConnect(tracker, txn, now));
        ConnectIsSent(trace, pending, tracker, txn, now);
        pending, trace := pending[txn := PendingOp(Connect, tracker, now)], trace + [SentConnect(tracker, txn, now)];
      } else {
        OneLess(trace, pending, slots, txn);
        pending := pending - {txn};
        SetSlot(idx, Rotated(slots[idx]));
      }
    }

    /** Announces with the id on record, which has not expired, unless an announce is still open. */
    method SendAnnounceTo(idx: nat, tracker: Addr, now: nat, txn: nat, delivered: bool)
      requires Valid() && idx < |slots| && tracker in slots[idx].addrs && clock <= now
      requires tracker in connections && now < connections[tracker].expires && !Open(pending, tracker, Announce)
      modifies `slots, `pending, `connections, `trace, `clock
      ensures Valid() && clock == now && |slots| == |old(slots)|
      ensures trace == if delivered then old(trace) + [SentAnnounce(tracker, txn, old(connections)[tracker].id, now)] else old(trace)
      ensures connections == if delivered then old(connections) else old(connections) - {tracker}
      ensures pending == if delivered then old(pending)[txn := PendingOp(Announce, tracker, now)] else old(pending) - {txn}
      ensures slots == if delivered then old(slots) else old(slots)[idx := Rotated(old(slots)[idx])]
    {
      var e := SentAnnounce(tracker, txn, connections[tracker].id, now);
      IdIsFresh(trace, connections, clock, tracker, now);
      hide Justified, ConnectionsGranted, PendingSent, OneEach, Resolved, Fresh;
      Later(trace, connections, clock, now);
      clock := now;
      OneMore(pending, slots, idx, txn, PendingOp(Announce, tracker, now));
      if delivered {
        TraceGrows(trace, e, pending, connections, now, now);
        JustifiedMore(trace, e);
        AnnounceNeedsNoRecord(trace + [e], pending, tracker, txn, now);
        pending, trace := pending[txn := PendingOp(Announce, tracker, now)], trace + [e];
      } else {
        OneLess(trace, pending, slots, txn);
        Forgotten(trace, connections, now, tracker);
        pending, connections := pending - {txn}, connections - {tracker};
        SetSlot(idx, Rotated(slots[idx]));
      }
    }

    method TickTrackerSlot(idx: nat, now: nat, txn: nat, delivered: bool)
      requires Valid() && clock <= now
      modifies `slots, `pending, `connections, `trace, `clock
      ensures Valid() && clock <= now && |slots| == |old(slots)|
      ensures old(trace) <= trace
      ensures var wanted := Wanted(old(slots), idx, announceSecs, old(pending), old(connections), now, txn);
              trace == if delivered && wanted.Some? then old(trace) + [wanted.value] else old(trace)
      ensures Wanted(old(slots), idx, announceSecs, old(pending), old(connections), now, txn).None? ==>
                pending == old(pending) && connections == old(connections) && slots == old(slots)
      ensures var wanted := Wanted(old(slots), idx, announceSecs, old(pending), old(connections), now, txn);
              wanted.Some? ==>
                && pending == (if delivered then old(pending)[txn := Opened(wanted.value)] else old(pending) - {txn})
                && connections == (if delivered || wanted.value.SentConnect? then old(connections)
                                   else old(connections) - {wanted.value.to})
                && slots == (if delivered then old(slots) else old(slots)[idx := Rotated(old(slots)[idx])])
    {
      hide Valid;
      if idx >= |slots| || !slots[idx].scheme.Udp? {
        return;
      }
      var current := CurrentAddr(slots[idx]);
      if current.None? || !Due(slots[idx], announceSecs, now) {
        return;
      }
      var tracker := current.value;
      if tracker !in connections || now >= connections[tracker].expires {
        if !Open(pending, tracker, Connect) {
          SendConnect(idx, tracker, now, txn, delivered);
        }
        return;
      }
      if !Open(pending, tracker, Announce) {
        SendAnnounceTo(idx, tracker, now, txn, delivered);
      }
    }

    /** `draws` are the transaction id and the outcome of sending for each slot.  If nothing fails and no id is drawn twice,
        every due slot with an address has a request open to it afterwards. */
    method Tick(now: nat, draws: seq<(nat, bool)>)
      requires Valid() && clock <= now && |draws| == |slots|
      modifies `slots, `pending, `connections, `trace, `clock
      ensures Valid() && clock <= now
      ensures old(trace) <= trace
      ensures !active ==> trace == old(trace) && pending == old(pending)
      ensures active && Smooth(draws, old(pending)) ==>
                slots == old(slots) && forall i :: 0 <= i < |slots| ==> Served(slots[i], pending, announceSecs, now)
    {
      if !active {
        return;
      }
      hide Valid, Wanted, ServedUpTo, Smooth;
      SweepExpiredPending(now);
      NoneServed(draws, old(pending), pending, slots, announceSecs, now);
      ghost var smooth := Smooth(draws, old(pending));
      var n := |slots|;
      for idx := 0 to n
        invariant Valid() && clock <= now && old(trace) <= trace
        invariant smooth ==> slots == old(slots) && ServedUpTo(draws, old(pending), pending, slots, idx, announceSecs, now)
      {
        if smooth {
          ServeNext(draws, old(pending), pending, connections, slots, idx, announceSecs, now);
        }
        TickTrackerSlot(idx, now, draws[idx].0, draws[idx].1);
      }
      if smooth {
        AllServed(draws, old(pending), pending, slots, announceSecs, now);
      }
    }

    /** A datagram counts only as the answer of the asked address to an open request, which it closes.  Anything else, and
        anything while inactive, changes nothing. */
    method HandleDatagram(from: Addr, data: seq<Byte>, now: nat) returns (handled: bool)
      requires Valid() && clock <= now
      modifies `slots, `hadJoinResponse, `pending, `connections, `discovered, `trace, `clock
      ensures Valid() && clock <= now
      ensures handled <==>
                active && |data| >= 16 && U32At(data, 4) in old(pending) && old(pending)[U32At(data, 4)].tracker == from
      ensures !handled ==> pending == old(pending) && connections == old(connections) && slots == old(slots)
                           && discovered == old(discovered) && trace == old(trace) && hadJoinResponse == old(hadJoinResponse)
      ensures |slots| == |old(slots)|
      ensures handled ==>
                var txn := U32At(data, 4);
                var granted, peers := ConnectReply(data, txn), AnnounceReply(data, txn);
                var asked := old(pending)[txn].kind;
                && pending == old(pending) - {txn}
                && connections == (if asked.Connect? && granted.Some?
                                   then old(connections)[from := Connection(granted.value, now + CONNECTION_TTL)]
                                   else old(connections))
                && trace == old(trace) + (if asked.Connect? && granted.Some?
                                          then [GotConnection(from, txn, granted.value, now)] else [])
                && discovered == (if asked.Announce? && peers.Some?
                                  then old(discovered) + (map p | p in peers.value.1 :: now) else old(discovered))
                && hadJoinResponse == (old(hadJoinResponse) || (asked.Announce? && peers.Some? && isJoiner))
                && if asked.Announce? && peers.Some? then AnsweredAt(old(slots), from, peers.value.0, now, slots)
                   else slots == old(slots)
    {
      handled := false;
      if !active || |data| < 16 {
        return;
      }
      var txn := U32At(data, 4);
      if txn !in pending || pending[txn].tracker != from {
        return;
      }
      handled := true;
      var op := pending[txn];
      if op.kind.Connect? {
        var granted := ConnectReply(data, txn);
        ConnectAnswered(from, txn, granted, now);
      } else {
        var reply := AnnounceReply(data, txn);
        Close(txn, now);
        if reply.Some? {
          AnnounceAnswered(from, reply.value.0, reply.value.1, now);
        }
      }
    }

    method Close(txn: nat, now: nat)
      requires Valid() && clock <= now
      modifies `pending, `clock
      ensures Valid() && clock == now && pending == old(pending) - {txn}
    {
      hide Justified, ConnectionsGranted, PendingSent, OneEach, Resolved;
      OneLess(trace, pending, slots, txn);
      Later(trace, connections, clock, now);
      pending, clock := pending - {txn}, now;
    }

    method ConnectAnswered(from: Addr, txn: nat, granted: Option<nat>, now: nat)
      requires Valid() && clock <= now && txn in pending && pending[txn].kind.Connect? && pending[txn].tracker == from
      modifies `pending, `connections, `trace, `clock
      ensures Valid() && clock == now && pending == old(pending) - {txn}
      ensures granted.None? ==> connections == old(connections) && trace == old(trace)
      ensures granted.Some? ==>
                && connections == old(connections)[from := Connection(granted.value, now + CONNECTION_TTL)]
                && trace == old(trace) + [GotConnection(from, txn, granted.value, now)]
    {
      var asked := pending[txn].created;
      assert SentConnect(from, txn, asked) in trace;
      hide Justified, ConnectionsGranted, PendingSent, OneEach, Resolved;
      Close(txn, now);
      if granted.Some? {
        var e := GotConnection(from, txn, granted.value, now);
        AnswerGrants(trace, from, txn, asked, granted.value, now);
        TraceGrows(trace, e, pending, connections, now, now);
        JustifiedMore(trace, e);
        Recorded(trace + [e], connections, now, from, granted.value);
        connections, trace := connections[from := Connection(granted.value, now + CONNECTION_TTL)], trace + [e];
      }
    }

    method AnnounceAnswered(from: Addr, interval: nat, peers: seq<Addr>, now: nat)
      requires Valid()
      modifies `slots, `discovered, `hadJoinResponse
      ensures Valid() && AnsweredAt(old(slots), from, interval, now, slots)
      ensures discovered == old(discovered) + (map p | p in peers :: now)
      ensures hadJoinResponse == (old(hadJoinResponse) || isJoiner)
    {
      hide Justified, ConnectionsGranted, PendingSent, OneEach, Resolved;
      var idx := SlotFor(from);
      if idx.Some? {
        SetSlot(idx.value, Answered(slots[idx.value], interval, now));
      }
      NoteDiscovered(peers, now);
      if isJoiner {
        hadJoinResponse := true;
      }
    }

    /** The first slot that has the address. */
    method SlotFor(a: Addr) returns (idx: Option<nat>)
      ensures idx.Some? ==> idx.value < |slots| && a in slots[idx.value].addrs
      ensures forall i :: 0 <= i < (if idx.Some? then idx.value else |slots|) ==> a !in slots[i].addrs
    {
      for i := 0 to |slots|
        invariant forall j :: 0 <= j < i ==> a !in slots[j].addrs
      {
        if a in slots[i].addrs {
          return Some(i);
        }
      }
      idx := None;
    }

    method NoteDiscovered(peers: seq<Addr>, now: nat)
      modifies `discovered
      ensures discovered == old(discovered) + (map p | p in peers :: now)
    {
      for k := 0 to |peers|
        invariant discovered == old(discovered) + (map p | p in peers[..k] :: now)
      {
        assert peers[..k + 1] == peers[..k] + [peers[k]];
        discovered := discovered[peers[k] := now];
      }
      assert peers[..|peers|] == peers;
    }

    // ---------- HTTP announces ----------

    method SweepExpiredHttp(now: nat)
      requires Valid()
      modifies `slots
      ensures Valid() && slots == SweptAll(old(slots), now) && InFlight(slots) <= MAX_HTTP_IN_FLIGHT
    {
      for i := 0 to |slots|
        invariant Valid() && |slots| == |old(slots)| && InFlight(slots) <= InFlight(old(slots))
        invariant forall j :: 0 <= j < |slots| ==> slots[j] == if j < i then Swept(old(slots)[j], now) else old(slots)[j]
      {
        hide Valid;
        InFlightChanged(slots, i, Swept(slots[i], now));
        SetSlot(i, Swept(slots[i], now));
      }
    }

    /** Hands out announces for slots that want one, in order, never more than four being in flight and none left waiting
        while fewer are. */
    method TakePendingHttpAnnounces(now: nat) returns (works: seq<HttpWork>, ghost upTo: nat)
      requires Valid()
      modifies `slots
      ensures Valid()
      ensures !active ==> works == [] && slots == old(slots)
      ensures active ==> HandedOut(works, SweptAll(old(slots), now), slots, upTo, generation, announceSecs, now)
      ensures active ==> upTo == |slots| || InFlight(slots) == MAX_HTTP_IN_FLIGHT
    {
      hide Valid, InFlight, HandedOut, WantsHttp, SweptAll;
      works, upTo := [], 0;
      if !active {
        return;
      }
      SweepExpiredHttp(now);
      ghost var swept := slots;
      var inFlight := CountInFlight();
      NothingHandedOut(slots, generation, announceSecs, now);
      var i := 0;
      while i < |slots| && inFlight < MAX_HTTP_IN_FLIGHT
        invariant 0 <= i <= |slots|
        invariant Valid() && inFlight == InFlight(slots) <= MAX_HTTP_IN_FLIGHT
        invariant HandedOut(works, swept, slots, i, generation, announceSecs, now)
      {
        HandOutNext(works, swept, slots, i, generation, announceSecs, now);
        if WantsHttp(slots[i], announceSecs, now) {
          InFlightChanged(slots, i, Sending(slots[i], now));
          SetSlot(i, Sending(slots[i], now));
          inFlight := inFlight + 1;
          works := works + [HttpWork(i, generation)];
        }
        i := i + 1;
      }
      upTo := i;
    }

    method CountInFlight() returns (n: nat)
      ensures n == InFlight(slots)
    {
      n := 0;
      for i := 0 to |slots|
        invariant n == InFlight(slots[..i])
      {
        assert slots[..i + 1][..i] == slots[..i];
        n := if slots[i].httpInFlight then n + 1 else n;
      }
      assert slots[..|slots|] == slots;
    }

    /** The result of an announce that was handed out in turn `issued`.  In any later turn, short of 2^64, it changes
        nothing. */
    method ApplyHttpAnnounceResult(work: HttpWork, outcome: Result<(nat, seq<Addr>)>, now: nat, ghost issued: nat)
      returns (event: bool)
      requires Valid() && issued <= turns && work.generation == issued % U64
      modifies `slots, `discovered, `hadJoinResponse
      ensures Valid() && |slots| == |old(slots)|
      ensures issued < turns < issued + U64 ==>
                !event && slots == old(slots) && discovered == old(discovered) && hadJoinResponse == old(hadJoinResponse)
      ensures event <==> active && work.generation == generation && work.slot < |slots| && outcome.Ok?
      ensures discovered == if event then old(discovered) + (map p | p in outcome.value.1 :: now) else old(discovered)
      ensures active && work.generation == generation && work.slot < |slots| ==>
                var freed := old(slots)[work.slot].(httpInFlight := false, httpSince := None);
                slots == old(slots)[work.slot := if event then Answered(freed, outcome.value.0, now) else freed]
      ensures hadJoinResponse == (old(hadJoinResponse) || (event && isJoiner))
    {
      DistinctTurns(issued, turns);
      event := false;
      if !active || work.generation != generation || work.slot >= |slots| {
        return;
      }
      var slot := slots[work.slot].(httpInFlight := false, httpSince := None);
      hide Valid;
      if outcome.Err? {
        SetSlot(work.slot, slot);
        return;
      }
      SetSlot(work.slot, Answered(slot, outcome.value.0, now));
      NoteDiscovered(outcome.value.1, now);
      if isJoiner {
        hadJoinResponse := true;
      }
      event := true;
    }

    /** However it was driven: announces carry ids their address granted in this session less than 55 s before, at most one
        connect and one announce are open per address, and at most four HTTP announces are in flight. */
    lemma SessionIsSound()
      requires Valid()
      ensures forall k :: 0 <= k < |trace| && trace[k].SentAnnounce? ==> Fresh(trace[..k], trace[k].to, trace[k].id, trace[k].at)
      ensures |pending| <= 2 * |Addresses(slots)|
      ensures InFlight(slots) <= MAX_HTTP_IN_FLIGHT
    {
      PendingBounded(pending, slots);
    }
  }

  lemma EmptySession(slots: seq<Slot>, now: nat)
    ensures Justified([]) && PendingSent([], map[]) && ConnectionsGranted([], map[], now) && OneEach(map[]) && Resolved(map[], slots)
  {
  }

  predicate Open(pending: map<nat, PendingOp>, a: Addr, kind: Kind) {
    exists t :: t in pending && pending[t].tracker == a && pending[t].kind == kind
  }

  function Answered(s: Slot, interval: nat, now: nat): Slot {
    s.(interval := Max(interval, MIN_ANNOUNCE_SECS), lastAnnounce := Some(now))
  }

  /** The first slot that has the address, if any, takes the answer; no other slot changes. */
  ghost predicate AnsweredAt(slots: seq<Slot>, from: Addr, interval: nat, now: nat, slots': seq<Slot>) {
    if i :| 0 <= i < |slots| && from in slots[i].addrs && forall j :: 0 <= j < i ==> from !in slots[j].addrs
    then slots' == slots[i := Answered(slots[i], interval, now)]
    else slots' == slots
  }

  predicate WantsHttp(s: Slot, announceSecs: nat, now: nat) {
    s.scheme.Http? && !s.httpInFlight && Due(s, announceSecs, now)
  }

  function Sending(s: Slot, now: nat): Slot {
    s.(httpInFlight := true, httpSince := Some(now))
  }

  /** Of the first `n` slots exactly those that wanted one got an announce, in order, and are now sending. */
  ghost predicate HandedOut(works: seq<HttpWork>, before: seq<Slot>, after: seq<Slot>, n: nat, generation: nat,
                            announceSecs: nat, now: nat)
  {
    && n <= |before| == |after|
    && |works| <= n
    && (forall k :: 0 <= k < |works| ==> works[k].generation == generation && works[k].slot < n)
    && (forall j, k :: 0 <= j < k < |works| ==> works[j].slot < works[k].slot)
    && (forall i :: 0 <= i < n ==> (WantsHttp(before[i], announceSecs, now) <==> HttpWork(i, generation) in works))
    && (forall i :: 0 <= i < |before| ==>
          after[i] == if i < n && WantsHttp(before[i], announceSecs, now) then Sending(before[i], now) else before[i])
  }

  lemma NothingHandedOut(slots: seq<Slot>, generation: nat, announceSecs: nat, now: nat)
    ensures HandedOut([], slots, slots, 0, generation, announceSecs, now)
  {
  }

  lemma HandOutNext(works: seq<HttpWork>, before: seq<Slot>, after: seq<Slot>, n: nat, generation: nat, announceSecs: nat,
                    now: nat)
    requires HandedOut(works, before, after, n, generation, announceSecs, now) && n < |after|
    ensures if WantsHttp(after[n], announceSecs, now)
            then HandedOut(works + [HttpWork(n, generation)], before, after[n := Sending(after[n], now)], n + 1, generation,
                           announceSecs, now)
            else HandedOut(works, before, after, n + 1, generation, announceSecs, now)
    ensures WantsHttp(after[n], announceSecs, now) ==> !after[n].httpInFlight
  {
    hide Due;
  }

  ghost function SweptAll(slots: seq<Slot>, now: nat): seq<Slot> {
    seq(|slots|, i requires 0 <= i < |slots| => Swept(slots[i], now))
  }

  function Swept(s: Slot, now: nat): Slot {
    if s.httpInFlight && (s.httpSince.None? || Age(now, s.httpSince.value) >= HTTP_PENDING_TTL)
    then s.(httpInFlight := false, httpSince := None) else s
  }

  lemma DistinctTurns(s: nat, t: nat)
    ensures s < t < s + U64 ==> s % U64 != t % U64
  {
  }

  lemma Recorded(trace: Trace, connections: map<Addr, Connection>, now: nat, a: Addr, id: nat)
    requires ConnectionsGranted(trace, connections, now) && Granted(trace, a, id, now)
    ensures ConnectionsGranted(trace, connections[a := Connection(id, now + CONNECTION_TTL)], now)
  {
    hide Granted;
  }

  /** What a tick sends for a slot: nothing unless it is a UDP tracker with an address and due; an announce if the address
      has an unexpired id and no announce open; a connect if it has no such id and no connect open. */
  ghost function Wanted(slots: seq<Slot>, idx: nat, announceSecs: nat, pending: map<nat, PendingOp>,
                        connections: map<Addr, Connection>, now: nat, txn: nat): (w: Option<Event>)
    ensures w.Some? ==> !w.value.GotConnection?
  {
    if idx >= |slots| || !slots[idx].scheme.Udp? || CurrentAddr(slots[idx]).None? || !Due(slots[idx], announceSecs, now)
    then None
    else
      var a := CurrentAddr(slots[idx]).value;
      var connected := a in connections && now < connections[a].expires;
      if Open(pending, a, if connected then Announce else Connect) then None
      else if connected then Some(SentAnnounce(a, txn, connections[a].id, now))
      else Some(SentConnect(a, txn, now))
  }

  /** A tick sends something to the address for this slot. */
  ghost predicate Asks(slots: seq<Slot>, idx: nat, announceSecs: nat, pending: map<nat, PendingOp>,
                       connections: map<Addr, Connection>, now: nat, txn: nat, a: Addr) {
    var w := Wanted(slots, idx, announceSecs, pending, connections, now, txn);
    w.Some? && w.value.to == a
  }

  /** A UDP slot that is due and whose current address this is. */
  predicate Claims(s: Slot, announceSecs: nat, now: nat, a: Addr) {
    s.scheme.Udp? && CurrentAddr(s) == Some(a) && Due(s, announceSecs, now)
  }

  /** Within a minute of the answer that slot `i` took, its address is asked again exactly if it is the current one of
      another UDP slot that is due, and no such request to it is open. */
  lemma AnsweredIsLeftAlone(slots: seq<Slot>, i: nat, announceSecs: nat, pending: map<nat, PendingOp>,
                            connections: map<Addr, Connection>, now: nat, txn: nat, a: Addr)
    requires i < |slots| && slots[i].lastAnnounce.Some? && Age(now, slots[i].lastAnnounce.value) < MIN_ANNOUNCE_SECS * 1000
    requires announceSecs >= MIN_ANNOUNCE_SECS
    ensures var connected := a in connections && now < connections[a].expires;
            (exists k: nat :: Asks(slots, k, announceSecs, pending, connections, now, txn, a)) <==>
              && !Open(pending, a, if connected then Announce else Connect)
              && exists k :: 0 <= k < |slots| && k != i && Claims(slots[k], announceSecs, now, a)
  {
    hide Due, CurrentAddr;
    DueBetween(slots[i], announceSecs, now);
    if k: nat :| Asks(slots, k, announceSecs, pending, connections, now, txn, a) {
      assert k != i && Claims(slots[k], announceSecs, now, a);
    }
    if k :| 0 <= k < |slots| && k != i && Claims(slots[k], announceSecs, now, a) {
      if !Open(pending, a, if a in connections && now < connections[a].expires then Announce else Connect) {
        assert Asks(slots, k, announceSecs, pending, connections, now, txn, a);
      }
    }
  }

  /** An answer is noted for the first slot with the address only, so a second one with the same address that was never
      answered asks again at every tick that finds no such request open, whatever was answered before. */
  lemma SecondSlotAsksAgain(slots: seq<Slot>, slots': seq<Slot>, from: Addr, interval: nat, at: nat, i: nat, j: nat,
                            announceSecs: nat, pending: map<nat, PendingOp>, connections: map<Addr, Connection>, now: nat, txn: nat)
    requires AnsweredAt(slots, from, interval, at, slots') && i < j < |slots| && from in slots[i].addrs
    requires slots[j].scheme.Udp? && CurrentAddr(slots[j]) == Some(from) && slots[j].lastAnnounce.None?
    requires !Open(pending, from, if from in connections && now < connections[from].expires then Announce else Connect)
    ensures |slots'| == |slots| && slots'[j] == slots[j]
    ensures Asks(slots', j, announceSecs, pending, connections, now, txn, from)
  {
    hide CurrentAddr;
    FirstHolder(slots, from, i);
  }

  lemma {:induction false} FirstHolder(slots: seq<Slot>, a: Addr, i: nat)
    requires i < |slots| && a in slots[i].addrs
    ensures exists k :: 0 <= k <= i && a in slots[k].addrs && forall j :: 0 <= j < k ==> a !in slots[j].addrs
    decreases i
  {
    if j :| 0 <= j < i && a in slots[j].addrs {
      FirstHolder(slots, a, j);
    }
  }

  function Opened(e: Event): PendingOp
    requires !e.GotConnection?
  {
    PendingOp(if e.SentConnect? then Connect else Announce, e.to, e.at)
  }

  /** Every send succeeds, and the transaction ids are new and all different. */
  predicate Smooth(draws: seq<(nat, bool)>, pending: map<nat, PendingOp>) {
    && (forall i :: 0 <= i < |draws| ==> draws[i].1 && draws[i].0 !in pending)
    && forall i, j :: 0 <= i < j < |draws| ==> draws[i].0 != draws[j].0
  }

  predicate Drawn(draws: seq<(nat, bool)>, n: nat, txn: nat)
    requires n <= |draws|
  {
    exists i :: 0 <= i < n && draws[i].0 == txn
  }

  /** A due UDP slot that has an address has a request open to it. */
  predicate Served(s: Slot, pending: map<nat, PendingOp>, announceSecs: nat, now: nat) {
    s.scheme.Udp? && CurrentAddr(s).Some? && Due(s, announceSecs, now) ==>
      Open(pending, CurrentAddr(s).value, Connect) || Open(pending, CurrentAddr(s).value, Announce)
  }

  /** The first `n` slots are served, and what is pending was so before or was drawn for one of them. */
  ghost predicate ServedUpTo(draws: seq<(nat, bool)>, before: map<nat, PendingOp>, pending: map<nat, PendingOp>,
                             slots: seq<Slot>, n: nat, announceSecs: nat, now: nat)
  {
    && n <= |slots| == |draws|
    && (forall t :: t in pending ==> t in before || Drawn(draws, n, t))
    && forall i :: 0 <= i < n ==> Served(slots[i], pending, announceSecs, now)
  }

  lemma NoneServed(draws: seq<(nat, bool)>, before: map<nat, PendingOp>, pending: map<nat, PendingOp>, slots: seq<Slot>,
                   announceSecs: nat, now: nat)
    requires |slots| == |draws| && forall t :: t in pending ==> t in before
    ensures ServedUpTo(draws, before, pending, slots, 0, announceSecs, now)
  {
  }

  lemma AllServed(draws: seq<(nat, bool)>, before: map<nat, PendingOp>, pending: map<nat, PendingOp>, slots: seq<Slot>,
                  announceSecs: nat, now: nat)
    requires ServedUpTo(draws, before, pending, slots, |slots|, announceSecs, now)
    ensures forall i :: 0 <= i < |slots| ==> Served(slots[i], pending, announceSecs, now)
  {
  }

  lemma ServeNext(draws: seq<(nat, bool)>, before: map<nat, PendingOp>, pending: map<nat, PendingOp>,
                  connections: map<Addr, Connection>, slots: seq<Slot>, n: nat, announceSecs: nat, now: nat)
    requires ServedUpTo(draws, before, pending, slots, n, announceSecs, now) && n < |slots| && Smooth(draws, before)
    ensures draws[n].1
    ensures var wanted := Wanted(slots, n, announceSecs, pending, connections, now, draws[n].0);
            ServedUpTo(draws, before, if wanted.Some? then pending[draws[n].0 := Opened(wanted.value)] else pending, slots,
                       n + 1, announceSecs, now)
  {
    hide Served, Wanted;
    var txn := draws[n].0;
    var wanted := Wanted(slots, n, announceSecs, pending, connections, now, txn);
    var pending' := if wanted.Some? then pending[txn := Opened(wanted.value)] else pending;
    assert txn !in pending;
    assert Drawn(draws, n + 1, txn);
    SlotServed(slots, n, announceSecs, pending, connections, now, txn);
    OthersStayServed(slots, n, announceSecs, pending, pending', now);
  }

  lemma SlotServed(slots: seq<Slot>, idx: nat, announceSecs: nat, pending: map<nat, PendingOp>,
                   connections: map<Addr, Connection>, now: nat, txn: nat)
    requires idx < |slots|
    ensures var wanted := Wanted(slots, idx, announceSecs, pending, connections, now, txn);
            Served(slots[idx], if wanted.Some? then pending[txn := Opened(wanted.value)] else pending, announceSecs, now)
  {
    var wanted := Wanted(slots, idx, announceSecs, pending, connections, now, txn);
    if wanted.Some? {
      assert txn in pending[txn := Opened(wanted.value)];
    }
  }

  lemma OthersStayServed(slots: seq<Slot>, idx: nat, announceSecs: nat, pending: map<nat, PendingOp>,
                         pending': map<nat, PendingOp>, now: nat)
    requires idx <= |slots| && forall t :: t in pending ==> t in pending' && pending'[t] == pending[t]
    ensures forall i :: 0 <= i < idx && Served(slots[i], pending, announceSecs, now) ==>
              Served(slots[i], pending', announceSecs, now)
  {
    forall i | 0 <= i < idx && Served(slots[i], pending, announceSecs, now)
      ensures Served(slots[i], pending', announceSecs, now)
    {
      if CurrentAddr(slots[i]).Some? {
        StaysOpen(pending, pending', CurrentAddr(slots[i]).value);
      }
    }
  }

  lemma StaysOpen(pending: map<nat, PendingOp>, pending': map<nat, PendingOp>, a: Addr)
    requires forall t :: t in pending ==> t in pending' && pending'[t] == pending[t]
    ensures Open(pending, a, Connect) ==> Open(pending', a, Connect)
    ensures Open(pending, a, Announce) ==> Open(pending', a, Announce)
  {
  }

  lemma ResolvedMore(pending: map<nat, PendingOp>, slots: seq<Slot>, idx: nat, s: Slot)
    requires Resolved(pending, slots) && idx < |slots| && forall a :: a in slots[idx].addrs ==> a in s.addrs
    ensures Resolved(pending, slots[idx := s])
  {
    forall t | t in pending
      ensures pending[t].tracker in Addresses(slots[idx := s])
    {
      AddressesContain(slots, pending[t].tracker);
      AddressesContain(slots[idx := s], pending[t].tracker);
      var i :| 0 <= i < |slots| && pending[t].tracker in slots[i].addrs;
      assert pending[t].tracker in slots[idx := s][i].addrs;
    }
  }

  lemma Later(trace: Trace, connections: map<Addr, Connection>, clock: nat, now: nat)
    requires ConnectionsGranted(trace, connections, clock) && clock <= now
    ensures ConnectionsGranted(trace, connections, now)
  {
    hide Granted;
  }

  lemma Forgotten(trace: Trace, connections: map<Addr, Connection>, now: nat, a: Addr)
    requires ConnectionsGranted(trace, connections, now)
    ensures ConnectionsGranted(trace, connections - {a}, now)
  {
    hide Granted;
  }

  lemma IdIsFresh(trace: Trace, connections: map<Addr, Connection>, clock: nat, a: Addr, now: nat)
    requires ConnectionsGranted(trace, connections, clock) && clock <= now && a in connections && now < connections[a].expires
    ensures Fresh(trace, a, connections[a].id, now)
  {
    hide Granted;
    var at := connections[a].expires - CONNECTION_TTL;
    assert Granted(trace, a, connections[a].id, at);
  }

  /** A request to an address that has none of its kind open; one that had the same transaction id is lost. */
  lemma OneMore(pending: map<nat, PendingOp>, slots: seq<Slot>, idx: nat, txn: nat, op: PendingOp)
    requires OneEach(pending) && Resolved(pending, slots) && idx < |slots| && op.tracker in slots[idx].addrs
    requires !Open(pending, op.tracker, op.kind)
    ensures OneEach(pending[txn := op]) && Resolved(pending[txn := op], slots)
  {
    AddressesContain(slots, op.tracker);
  }

  lemma OneLess(trace: Trace, pending: map<nat, PendingOp>, slots: seq<Slot>, txn: nat)
    requires PendingSent(trace, pending) && OneEach(pending) && Resolved(pending, slots)
    ensures PendingSent(trace, pending - {txn}) && OneEach(pending - {txn}) && Resolved(pending - {txn}, slots)
  {
  }

  lemma ConnectIsSent(trace: Trace, pending: map<nat, PendingOp>, a: Addr, txn: nat, now: nat)
    requires PendingSent(trace + [SentConnect(a, txn, now)], pending)
    ensures PendingSent(trace + [SentConnect(a, txn, now)], pending[txn := PendingOp(Connect, a, now)])
  {
  }

  lemma AnnounceNeedsNoRecord(trace: Trace, pending: map<nat, PendingOp>, a: Addr, txn: nat, now: nat)
    requires PendingSent(trace, pending)
    ensures PendingSent(trace, pending[txn := PendingOp(Announce, a, now)])
  {
  }
}
