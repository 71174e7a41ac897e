/** What trackers answer (src/nat/tracker.rs): compact peer lists (BEP 23), UDP replies (BEP 15) and the bencoded body of
    an HTTP announce (BEP 3). */
module TrackerReplies {
  import opened Wrappers
  import opened Bencode

  const MAX_PEERS_PER_RESPONSE: nat := 512
  const U32: nat := 0x1_0000_0000

  datatype Peer = Peer(a: Byte, b: Byte, c: Byte, d: Byte, port: nat)

  // ---------- compact peers ----------

  function PeerAt(bytes: seq<Byte>, i: nat): Peer
    requires i + 6 <= |bytes|
  {
    Peer(bytes[i], bytes[i + 1], bytes[i + 2], bytes[i + 3], 0x100 * (bytes[i + 4] as int) + bytes[i + 5])
  }

  function Chunks(bytes: seq<Byte>): (peers: seq<Peer>)
    requires |bytes| % 6 == 0
    ensures |peers| == |bytes| / 6
    ensures forall k :: 0 <= k < |peers| ==> peers[k] == PeerAt(bytes, 6 * k)
  {
    if bytes == [] then []
    else
      var rest := Chunks(bytes[6..]);
      assert forall k :: 0 <= k < |rest| ==> PeerAt(bytes[6..], 6 * k) == PeerAt(bytes, 6 * (k + 1));
      [PeerAt(bytes, 0)] + rest
  }

  /** The peers that have a port, in order. */
  function Dialable(peers: seq<Peer>): seq<Peer> {
    if peers == [] then []
    else
      var init, last := peers[..|peers| - 1], peers[|peers| - 1];
      Dialable(init) + if last.port == 0 then [] else [last]
  }

  function CompactPeers(bytes: seq<Byte>): Result<seq<Peer>> {
    if |bytes| % 6 != 0 || |bytes| / 6 > MAX_PEERS_PER_RESPONSE then Err else Ok(Dialable(Chunks(bytes)))
  }

  method ParseCompactPeers(bytes: seq<Byte>) returns (r: Result<seq<Peer>>)
    ensures r == CompactPeers(bytes)
  {
    if |bytes| % 6 != 0 {
      return Err;
    }
    var n := |bytes| / 6;
    if n > MAX_PEERS_PER_RESPONSE {
      return Err;
    }
    var peers: seq<Peer> := [];
    ghost var all := Chunks(bytes);
    for k := 0 to n
      invariant peers == Dialable(all[..k])
    {
      assert all[..k + 1][..k] == all[..k];
      var peer := PeerAt(bytes, 6 * k);
      if peer.port != 0 {
        peers := peers + [peer];
      }
    }
    assert all[..n] == all;
    r := Ok(peers);
  }

  predicate ValidPeer(p: Peer) {
    p.port < 0x1_0000
  }

  function EncodePeer(p: Peer): (s: seq<Byte>)
    requires ValidPeer(p)
    ensures |s| == 6 && PeerAt(s, 0) == p
  {
    [p.a, p.b, p.c, p.d, p.port / 0x100, p.port % 0x100]
  }

  function EncodePeers(peers: seq<Peer>): (s: seq<Byte>)
    requires forall k :: 0 <= k < |peers| ==> ValidPeer(peers[k])
    ensures |s| == 6 * |peers|
  {
    if peers == [] then [] else EncodePeer(peers[0]) + EncodePeers(peers[1..])
  }

  lemma {:induction false} ChunksOfEncoded(peers: seq<Peer>)
    requires forall k :: 0 <= k < |peers| ==> ValidPeer(peers[k])
    ensures Chunks(EncodePeers(peers)) == peers
  {
    if peers != [] {
      var bytes := EncodePeers(peers);
      assert bytes[6..] == EncodePeers(peers[1..]);
      assert PeerAt(bytes, 0) == PeerAt(EncodePeer(peers[0]), 0);
      ChunksOfEncoded(peers[1..]);
    }
  }

  /** A compact list of at most 512 peers is read as exactly those with a port, in order; a longer one is refused. */
  lemma CompactRoundTrip(peers: seq<Peer>)
    requires forall k :: 0 <= k < |peers| ==> ValidPeer(peers[k])
    ensures CompactPeers(EncodePeers(peers)) == if |peers| <= MAX_PEERS_PER_RESPONSE then Ok(Dialable(peers)) else Err
  {
    ChunksOfEncoded(peers);
  }

  // ---------- UDP replies ----------

  function U32At(buf: seq<Byte>, i: nat): (n: nat)
    requires i + 4 <= |buf|
    ensures n < U32
  {
    (((buf[i] as int) * 0x100 + buf[i + 1]) * 0x100 + buf[i + 2]) * 0x100 + buf[i + 3]
  }

  /** The connection id, if this is a reply to the connect request `txn`. */
  function ConnectReply(buf: seq<Byte>, txn: nat): Option<nat> {
    if |buf| < 16 || U32At(buf, 0) != 0 || U32At(buf, 4) != txn then None
    else Some(U32At(buf, 8) * U32 + U32At(buf, 12))
  }

  /** The interval and peers, if this is a reply to the announce request `txn`. */
  function AnnounceReply(buf: seq<Byte>, txn: nat): Option<(nat, seq<Peer>)> {
    if |buf| < 20 || U32At(buf, 0) != 1 || U32At(buf, 4) != txn || CompactPeers(buf[20..]).Err? then None
    else Some((U32At(buf, 8), CompactPeers(buf[20..]).value))
  }

  lemma FourBytes(n: nat)
    requires n < U32
    ensures n / 0x100_0000 < 0x100
    ensures n == ((n / 0x100_0000 * 0x100 + n / 0x1_0000 % 0x100) * 0x100 + n / 0x100 % 0x100) * 0x100 + n % 0x100
  {
    var a := n / 0x100;
    var b := a / 0x100;
    assert n / 0x1_0000 == b && n / 0x100_0000 == b / 0x100;
  }

  function U32Bytes(n: nat): (s: seq<Byte>)
    requires n < U32
    ensures |s| == 4 && U32At(s, 0) == n
  {
    FourBytes(n);
    [n / 0x100_0000, n / 0x1_0000 % 0x100, n / 0x100 % 0x100, n % 0x100]
  }

  /** A connect reply as BEP 15 lays it out: action 0, transaction id, connection id. */
  function WriteConnectReply(txn: nat, id: nat): (s: seq<Byte>)
    requires txn < U32 && id < U32 * U32
    ensures |s| == 16
  {
    U32Bytes(0) + U32Bytes(txn) + U32Bytes(id / U32) + U32Bytes(id % U32)
  }

  /** An announce reply: action 1, transaction id, interval, leechers, seeders, compact peers. */
  function WriteAnnounceReply(txn: nat, interval: nat, leechers: nat, seeders: nat, peers: seq<Peer>): seq<Byte>
    requires txn < U32 && interval < U32 && leechers < U32 && seeders < U32
    requires forall k :: 0 <= k < |peers| ==> ValidPeer(peers[k])
  {
    AnnounceHeader(txn, interval, leechers, seeders) + EncodePeers(peers)
  }

  function AnnounceHeader(txn: nat, interval: nat, leechers: nat, seeders: nat): (s: seq<Byte>)
    requires txn < U32 && interval < U32 && leechers < U32 && seeders < U32
    ensures |s| == 20
  {
    U32Bytes(1) + U32Bytes(txn) + U32Bytes(interval) + U32Bytes(leechers) + U32Bytes(seeders)
  }

  lemma HeaderReads(txn: nat, interval: nat, leechers: nat, seeders: nat, rest: seq<Byte>)
    requires txn < U32 && interval < U32 && leechers < U32 && seeders < U32
    ensures var buf := AnnounceHeader(txn, interval, leechers, seeders) + rest;
            U32At(buf, 0) == 1 && U32At(buf, 4) == txn && U32At(buf, 8) == interval && buf[20..] == rest
  {
    var head := AnnounceHeader(txn, interval, leechers, seeders);
    hide U32Bytes;
    U32AtPart(head, 0, 1);
    U32AtPart(head, 4, txn);
    U32AtPart(head, 8, interval);
  }

  lemma U32AtPart(buf: seq<Byte>, i: nat, n: nat)
    requires n < U32 && i + 4 <= |buf| && buf[i..i + 4] == U32Bytes(n)
    ensures U32At(buf, i) == n
  {
    hide U32Bytes;
    var part := buf[i..i + 4];
    assert part[0] == buf[i] && part[1] == buf[i + 1] && part[2] == buf[i + 2] && part[3] == buf[i + 3];
  }

  /** A connect reply is read as its connection id by the request it answers, and by no other. */
  lemma ConnectReplyReads(txn: nat, id: nat, asked: nat)
    requires txn < U32 && id < U32 * U32
    ensures ConnectReply(WriteConnectReply(txn, id), asked) == if asked == txn then Some(id) else None
  {
    var buf := WriteConnectReply(txn, id);
    hide U32Bytes;
    U32AtPart(buf, 0, 0);
    U32AtPart(buf, 4, txn);
    U32AtPart(buf, 8, id / U32);
    U32AtPart(buf, 12, id % U32);
  }

  /** An announce reply is read as its interval and dialable peers by the request it answers, and by no other; a reply with
      more than 512 peers is not accepted at all. */
  lemma AnnounceReplyReads(txn: nat, interval: nat, leechers: nat, seeders: nat, peers: seq<Peer>, asked: nat)
    requires txn < U32 && interval < U32 && leechers < U32 && seeders < U32
    requires forall k :: 0 <= k < |peers| ==> ValidPeer(peers[k])
    ensures AnnounceReply(WriteAnnounceReply(txn, interval, leechers, seeders, peers), asked) ==
              if asked == txn && |peers| <= MAX_PEERS_PER_RESPONSE then Some((interval, Dialable(peers))) else None
  {
    hide AnnounceHeader, EncodePeers, CompactPeers, U32At;
    HeaderReads(txn, interval, leechers, seeders, EncodePeers(peers));
    CompactRoundTrip(peers);
  }

  /** No datagram answers both a connect and an announce. */
  lemma RepliesAreDistinct(buf: seq<Byte>, s: nat, t: nat)
    ensures ConnectReply(buf, s).None? || AnnounceReply(buf, t).None?
  {
  }

  // ---------- HTTP announce bodies ----------

  const FAILURE_REASON: seq<Byte> := [0x66, 0x61, 0x69, 0x6C, 0x75, 0x72, 0x65, 0x20, 0x72, 0x65, 0x61, 0x73, 0x6F, 0x6E]
  const INTERVAL: seq<Byte> := [0x69, 0x6E, 0x74, 0x65, 0x72, 0x76, 0x61, 0x6C]
  const MIN_INTERVAL: seq<Byte> := [0x6D, 0x69, 0x6E, 0x20] + INTERVAL
  const PEERS: seq<Byte> := [0x70, 0x65, 0x65, 0x72, 0x73]

  function LastInt(entries: seq<Entry>, key: seq<Byte>): Option<int> {
    if entries == [] then None
    else
      var last := entries[|entries| - 1];
      if last.key == key && last.value.Int? then Some(last.value.n) else LastInt(entries[..|entries| - 1], key)
  }

  function FirstInt(entries: seq<Entry>, key: seq<Byte>): Option<int> {
    if entries == [] then None
    else if entries[0].key == key && entries[0].value.Int? then Some(entries[0].value.n)
    else FirstInt(entries[1..], key)
  }

  /** The last integer under "interval"; without one, the first under "min interval". */
  function Advertised(entries: seq<Entry>): Option<int> {
    var last := LastInt(entries, INTERVAL);
    if last.Some? then last else FirstInt(entries, MIN_INTERVAL)
  }

  function LastPeers(entries: seq<Entry>): seq<Byte> {
    if entries == [] then []
    else
      var last := entries[|entries| - 1];
      if last.key == PEERS && last.value.Bytes? then last.value.bytes else LastPeers(entries[..|entries| - 1])
  }

  predicate Fails(entries: seq<Entry>) {
    exists i :: 0 <= i < |entries| && entries[i].key == FAILURE_REASON
  }

  predicate NonCompact(entries: seq<Entry>) {
    exists i :: 0 <= i < |entries| && entries[i].key == PEERS && !entries[i].value.Bytes?
  }

  function ReadAnnounce(v: Value): Result<(nat, seq<Peer>)> {
    if !v.Dict? || Fails(v.entries) || NonCompact(v.entries) then Err
    else
      var interval, peers := Advertised(v.entries), CompactPeers(LastPeers(v.entries));
      if interval.None? || !(0 <= interval.value < U32) || peers.Err? then Err else Ok((interval.value, peers.value))
  }

  function ReadBody(body: seq<Byte>): Result<(nat, seq<Peer>)> {
    var root := Parse(body, 0);
    if root.Err? then Err else ReadAnnounce(root.value.0)
  }

  method ParseHttpAnnounceBody(body: seq<Byte>) returns (r: Result<(nat, seq<Peer>)>)
    ensures r == ReadBody(body)
  {
    hide Parse, CompactPeers;
    var root := ParseBencode(body, 0);
    if root.Err? || !root.value.0.Dict? {
      return Err;
    }
    var entries := root.value.0.entries;
    for i := 0 to |entries|
      invariant forall j :: 0 <= j < i ==> entries[j].key != FAILURE_REASON
    {
      if entries[i].key == FAILURE_REASON {
        return Err;
      }
    }
    var fields := Gather(entries);
    if fields.Err? || fields.value.0.None? || !(0 <= fields.value.0.value < U32) {
      return Err;
    }
    var peers := ParseCompactPeers(fields.value.1);
    if peers.Err? {
      return Err;
    }
    r := Ok((fields.value.0.value, peers.value));
  }

  /** One pass over the entries collects the interval and the peers. */
  method Gather(entries: seq<Entry>) returns (r: Result<(Option<int>, seq<Byte>)>)
    ensures r.Err? <==> NonCompact(entries)
    ensures r.Ok? ==> r.value == (Advertised(entries), LastPeers(entries))
  {
    var interval: Option<int>, peers := None, [];
    for k := 0 to |entries|
      invariant interval == Advertised(entries[..k]) && peers == LastPeers(entries[..k])
      invariant !NonCompact(entries[..k])
    {
      var e := entries[k];
      AdvertisedNext(entries[..k], e);
      assert entries[..k + 1] == entries[..k] + [e];
      assert entries[..k + 1][..k] == entries[..k];
      if e.key == INTERVAL || e.key == MIN_INTERVAL {
        if e.value.Int? && (interval.None? || e.key == INTERVAL) {
          interval := Some(e.value.n);
        }
      } else if e.key == PEERS {
        if !e.value.Bytes? {
          return Err;
        }
        peers := e.value.bytes;
      }
    }
    assert entries[..|entries|] == entries;
    r := Ok((interval, peers));
  }

  lemma AdvertisedNext(entries: seq<Entry>, e: Entry)
    ensures Advertised(entries + [e]) ==
              if e.value.Int? && (e.key == INTERVAL || (e.key == MIN_INTERVAL && Advertised(entries).None?))
              then Some(e.value.n) else Advertised(entries)
  {
    assert (entries + [e])[..|entries|] == entries;
    assert MIN_INTERVAL != INTERVAL by { assert |MIN_INTERVAL| == 12; }
    FirstIntNext(entries, e, MIN_INTERVAL);
  }

  lemma {:induction false} FirstIntNext(entries: seq<Entry>, e: Entry, key: seq<Byte>)
    ensures FirstInt(entries + [e], key) ==
              var first := FirstInt(entries, key);
              if first.None? && e.key == key && e.value.Int? then Some(e.value.n) else first
  {
    if entries != [] {
      assert (entries + [e])[1..] == entries[1..] + [e];
      FirstIntNext(entries[1..], e, key);
    }
  }

  /** The body that a tracker writes for any dictionary, with anything after it, is read as that dictionary says: refused
      if it reports a failure, has a list of peers that is not compact, lacks a valid interval or has too many peers, and
      otherwise the interval and exactly the peers with a port, in order. */
  lemma AnnounceBodyReads(entries: seq<Entry>, peers: seq<Peer>, junk: seq<Byte>)
    requires Representable(Dict(entries))
    requires forall k :: 0 <= k < |peers| ==> ValidPeer(peers[k])
    requires LastPeers(entries) == EncodePeers(peers)
    ensures var interval := Advertised(entries);
            ReadBody(Encode(Dict(entries)) + junk) ==
              if !Fails(entries) && !NonCompact(entries) && interval.Some? && 0 <= interval.value < U32
                 && |peers| <= MAX_PEERS_PER_RESPONSE
              then Ok((interval.value, Dialable(peers))) else Err
  {
    var body := Encode(Dict(entries)) + junk;
    assert Holds(body, 0, Encode(Dict(entries)));
    hide CompactPeers, Advertised, Fails, NonCompact, Parse, Encode, Representable;
    RoundTrip(body, 0, Dict(entries));
    CompactRoundTrip(peers);
  }
}
