/**
 * Talking to a tracker: the announce parameters, the compact peer list
 * (4 address bytes, 2 port bytes, per peer), the tracker's reply and the
 * choice of protocol from the announce URL.
 *
 * The HTTP request itself is not modelled: `HttpAnnounce` takes the tracker's
 * reply, or its absence when the connection failed, as a parameter. The
 * random characters of the peer id are a parameter as well.
 */
module Tracker {
  import opened Ascii
  import opened Outcomes
  import opened Bencode
  import opened Metainfo

  /** A peer in the swarm; `ip` is dotted-decimal text. */
  datatype Peer = Peer(ip: bytes, port: int, peerId: Option<bytes>)

  /** Why a tracker reply was not taken. */
  datatype ResponseError =
    | FailureReason(reason: bytes)    // "Tracker error: <reason>"
    | BadResponse                     // a TypeError, KeyError or AttributeError on the reply's shape
    | Undecodable(cause: DecodeError) // bdecode raised

  datatype TrackerError =
    | NoAnnounceUrl                   // "No announce URL in torrent"
    | UnsupportedProtocol(url: bytes) // "Unsupported tracker protocol: <url>"
    | UdpNotImplemented               // NotImplementedError, not a TrackerError
    | ConnectFailed                   // "Failed to connect to tracker"
    | CommunicationError(cause: ResponseError) // "Error in tracker communication"

  /** The protocol `announce` picks from the URL. */
  datatype Route = NoUrl | Http | Udp | Unsupported

  /** What an announce sends, every value as text. */
  datatype AnnounceParams = AnnounceParams(
    infoHash: bytes,
    peerId: bytes,
    port: bytes,
    uploaded: bytes,
    downloaded: bytes,
    left: bytes,
    compact: bytes,
    event: bytes)

  /** The part of a tracker's state that a reply can change. */
  datatype Announced = Announced(interval: Value, minInterval: Value, peers: seq<Peer>)

  const DefaultInterval: int := 1800
  const DefaultMinInterval: int := 300
  /** The length of one compact peer record. */
  const PeerRecord: nat := 6

  const PeerIdPrefix: bytes := Str("-PC0001-")
  const PeerIdAlphabet: bytes := Str("0123456789abcdefghijklmnopqrstuvwxyz")

  const FailureKey: bytes := Str("failure reason")
  const IntervalKey: bytes := Str("interval")
  const MinIntervalKey: bytes := Str("min interval")
  const PeersKey: bytes := Str("peers")
  const IpKey: bytes := Str("ip")
  const PortKey: bytes := Str("port")

  // ---------------------------------------------------------------------------
  // Peer ids and announce parameters.

  /**
   * `_generate_peer_id`: "-PC0001-" and twelve characters of [0-9a-z];
   * `picks` are the positions in that alphabet that `random.choices` drew.
   */
  function GeneratePeerId(picks: seq<nat>): (r: bytes)
    requires |picks| == 12 && forall i :: 0 <= i < |picks| ==> picks[i] < |PeerIdAlphabet|
    ensures |r| == 20 && r[..8] == PeerIdPrefix
    ensures forall i :: 8 <= i < 20 ==> r[i] in PeerIdAlphabet
  {
    PeerIdPrefix + Picked(picks)
  }

  function Picked(picks: seq<nat>): (r: bytes)
    requires forall i :: 0 <= i < |picks| ==> picks[i] < |PeerIdAlphabet|
    ensures |r| == |picks| && forall i :: 0 <= i < |picks| ==> r[i] == PeerIdAlphabet[picks[i]]
  {
    if picks == [] then [] else [PeerIdAlphabet[picks[0]]] + Picked(picks[1..])
  }

  /** `_prepare_http_announce`. */
  function HttpAnnounceParams(infoHash: bytes, peerId: bytes, uploaded: int, downloaded: int,
                              left: int, event: bytes): (r: AnnounceParams)
    ensures r.infoHash == infoHash && r.peerId == peerId
    ensures r.port == Str("6881") && r.compact == Str("1")
    ensures r.left != [] && AllDigits(r.left)
    ensures r.event != [] && (event != [] ==> r.event == event)
  {
    AnnounceParams(
      infoHash, peerId, Str("6881"), SignedDecimal(uploaded), SignedDecimal(downloaded),
      Decimal(if left < 0 then 0 else left), Str("1"),
      if event == [] then Str("started") else event)
  }

  // ---------------------------------------------------------------------------
  // Compact peers.

  /** `'.'.join(str(b) for b in ip_bytes)`. */
  function DottedQuad(ip: bytes): bytes
    requires |ip| == 4
  {
    Decimal(ip[0]) + [Dot] + Decimal(ip[1]) + [Dot] + Decimal(ip[2]) + [Dot] + Decimal(ip[3])
  }

  /** One 6-byte record: the address, then the port big-endian (`struct.unpack('!H')`). */
  function CompactPeer(g: bytes): Peer
    requires |g| >= PeerRecord
  {
    Peer(DottedQuad(g[..4]), 256 * (g[4] as int) + g[5] as int, None)
  }

  /** The peers of a compact list; a last group shorter than six bytes is dropped. */
  function CompactPeers(b: bytes): (r: seq<Peer>)
    ensures PeerRecord * |r| <= |b|
    decreases |b|
  {
    if |b| < PeerRecord then [] else [CompactPeer(b[..PeerRecord])] + CompactPeers(b[PeerRecord..])
  }

  /** The peers from position `i` on: the record at `i`, then the rest. */
  lemma CompactStep(b: bytes, i: nat)
    requires i + PeerRecord <= |b|
    ensures CompactPeers(b[i..]) ==
      [Peer(DottedQuad(b[i..i + 4]), 256 * (b[i + 4] as int) + b[i + 5] as int, None)]
      + CompactPeers(b[i + PeerRecord..])
  {
    assert b[i..][..PeerRecord][..4] == b[i..i + 4];
    assert b[i..][PeerRecord..] == b[i + PeerRecord..];
  }

  /** `_parse_peers_compact`: six bytes at a time, stopping at a short last group. */
  method ParsePeersCompact(peersData: bytes) returns (peers: seq<Peer>)
    ensures peers == CompactPeers(peersData)
  {
    peers := [];
    var i := 0;
    while i < |peersData|
      invariant i <= |peersData|
      invariant peers + CompactPeers(peersData[i..]) == CompactPeers(peersData)
    {
      if i + PeerRecord > |peersData| {
        break;
      }
      var ipBytes := peersData[i..i + 4];
      var portBytes := peersData[i + 4..i + 6];
      var peer := Peer(DottedQuad(ipBytes), 256 * (portBytes[0] as int) + portBytes[1] as int, None);
      ghost var rest := CompactPeers(peersData[i + PeerRecord..]);
      assert CompactPeers(peersData[i..]) == [peer] + rest by {
        CompactStep(peersData, i);
      }
      assert peers + [peer] + rest == peers + ([peer] + rest);
      peers := peers + [peer];
      i := i + PeerRecord;
    }
  }

  // ---------------------------------------------------------------------------
  // The tracker's reply.

  /**
   * `key in v` on a reply: a dictionary has the key, a list has it as an
   * item, a byte string contains it. Only called on these three shapes.
   */
  predicate Has(v: Value, key: bytes)
    requires v.Dict? || v.List? || v.Bytes?
  {
    match v
    case Dict(m) => key in m
    case List(items) => Bytes(key) in items
    case Bytes(b) => Find(b, key, 0) != -1
  }

  /** `Peer(ip=p[b'ip'].decode(), port=p[b'port'])`. */
  function DictPeer(p: Value): Result<Peer, ResponseError> {
    if p.Dict? && IpKey in p.entries && p.entries[IpKey].Bytes?
       && PortKey in p.entries && p.entries[PortKey].Int?
    then Ok(Peer(p.entries[IpKey].b, p.entries[PortKey].n, None))
    else Err(BadResponse)
  }

  /** The peers of a non-compact (dictionary model) peer list, in order. */
  function DictPeers(items: seq<Value>): (r: Result<seq<Peer>, ResponseError>)
    ensures r.Ok? ==> |r.value| == |items|
  {
    if items == [] then Ok([])
    else
      var first :- DictPeer(items[0]);
      var rest :- DictPeers(items[1..]);
      Ok([first] + rest)
  }

  /**
   * `_parse_peers_compact` on a value that is not a list: a byte string is
   * read; a dictionary of fewer than six entries gives no peer (the loop
   * stops before slicing); anything else raises.
   */
  function CompactValue(v: Value): Result<seq<Peer>, ResponseError> {
    match v
    case Bytes(b) => Ok(CompactPeers(b))
    case Dict(m) => if |m| < PeerRecord then Ok([]) else Err(BadResponse)
    case _ => Err(BadResponse)
  }

  /** The `peers` entry: a list is the dictionary model, anything else compact. */
  function PeersOf(v: Value): Result<seq<Peer>, ResponseError> {
    if v.List? then DictPeers(v.items) else CompactValue(v)
  }

  /**
   * `_parse_tracker_response` on the state `s`: the new state and the error,
   * if any. `interval` and `min interval` are stored before the peers are
   * read, so an error in the peers leaves them updated.
   */
  function Respond(s: Announced, response: Value): (r: (Announced, Option<ResponseError>))
    ensures !response.Dict? ==> r.0 == s
    ensures r.1.Some? ==> r.0.peers == s.peers
    ensures r.0.peers != s.peers ==> response.Dict? && PeersKey in response.entries
  {
    if !(response.Dict? || response.List? || response.Bytes?) then
      (s, Some(BadResponse))   // `in` on an integer or None
    else if Has(response, FailureKey) then
      if response.Dict? && response.entries[FailureKey].Bytes? then
        (s, Some(FailureReason(response.entries[FailureKey].b)))
      else (s, Some(BadResponse))
    else if !response.Dict? then
      // a list or byte string can be searched but not indexed by a key
      if Has(response, IntervalKey) || Has(response, MinIntervalKey) || Has(response, PeersKey) then
        (s, Some(BadResponse))
      else (s, None)
    else
      var d := response.entries;
      var s1 := if IntervalKey in d then s.(interval := d[IntervalKey]) else s;
      var s2 := if MinIntervalKey in d then s1.(minInterval := d[MinIntervalKey]) else s1;
      if PeersKey !in d then (s2, None)
      else
        match PeersOf(d[PeersKey])
        case Err(e) => (s2, Some(e))
        case Ok(ps) => (s2.(peers := ps), None)
  }

  /** The protocol `announce` picks. */
  function RouteOf(url: bytes): (r: Route)
    ensures r == NoUrl <==> url == []
    ensures r == Http ==> StartsWith(url, Str("http"))
    ensures r == Udp ==> StartsWith(url, Str("udp"))
  {
    if url == [] then NoUrl
    else if StartsWith(url, Str("http")) then Http
    else if StartsWith(url, Str("udp")) then Udp
    else Unsupported
  }

  predicate StartsWith(s: bytes, prefix: bytes) {
    |prefix| <= |s| && s[..|prefix|] == prefix
  }

  // ---------------------------------------------------------------------------
  // The object.

  class TrackerClient {
    const torrent: Torrent
    var peerId: bytes
    var uploaded: int
    var downloaded: int
    var left: int
    var peers: seq<Peer>
    var interval: Value
    var minInterval: Value

    /** `Tracker(torrent)`, with the peer id's random picks given. */
    constructor (torrent: Torrent, picks: seq<nat>)
      requires |picks| == 12 && forall i :: 0 <= i < |picks| ==> picks[i] < |PeerIdAlphabet|
      ensures this.torrent == torrent && peerId == GeneratePeerId(picks)
      ensures uploaded == 0 && downloaded == 0 && left == torrent.GetTotalSize()
      ensures State() == Announced(Int(DefaultInterval), Int(DefaultMinInterval), [])
    {
      this.torrent := torrent;
      peerId := GeneratePeerId(picks);
      uploaded, downloaded := 0, 0;
      left := torrent.GetTotalSize();
      peers := [];
      interval, minInterval := Int(DefaultInterval), Int(DefaultMinInterval);
    }

    function State(): Announced
      reads this
    {
      Announced(interval, minInterval, peers)
    }

    function PrepareHttpAnnounce(event: bytes): (r: AnnounceParams)
      reads this, torrent
      ensures r.infoHash == torrent.infoHash && r.peerId == peerId
      ensures r.left != [] && AllDigits(r.left) && r.event != []
    {
      HttpAnnounceParams(torrent.infoHash, peerId, uploaded, downloaded, left, event)
    }

    /** `_parse_tracker_response`: overwrites `interval`, `min interval` and `peers` in that order. */
    method ParseTrackerResponse(response: Value) returns (err: Option<ResponseError>)
      modifies this`interval, this`minInterval, this`peers
      ensures (State(), err) == Respond(old(State()), response)
    {
      if !(response.Dict? || response.List? || response.Bytes?) {
        return Some(BadResponse);
      }
      if Has(response, FailureKey) {
        if response.Dict? && response.entries[FailureKey].Bytes? {
          return Some(FailureReason(response.entries[FailureKey].b));
        }
        return Some(BadResponse);
      }
      if !response.Dict? {
        if Has(response, IntervalKey) || Has(response, MinIntervalKey) || Has(response, PeersKey) {
          return Some(BadResponse);
        }
        return None;
      }
      var d := response.entries;
      if IntervalKey in d {
        interval := d[IntervalKey];
      }
      if MinIntervalKey in d {
        minInterval := d[MinIntervalKey];
      }
      if PeersKey in d {
        var peersData := d[PeersKey];
        if peersData.List? {
          var ps := DictPeers(peersData.items);
          if ps.Err? {
            return Some(ps.error);
          }
          peers := ps.value;
        } else if peersData.Bytes? {
          peers := ParsePeersCompact(peersData.b);
        } else {
          var ps := CompactValue(peersData);
          if ps.Err? {
            return Some(ps.error);
          }
          peers := ps.value;
        }
      }
      return None;
    }

    /**
     * `http_announce`, given the tracker's reply (`None` when the connection
     * failed). Every error after the connection is wrapped as a
     * communication error.
     */
    method HttpAnnounce(event: bytes, reply: Option<bytes>) returns (r: Result<seq<Peer>, TrackerError>)
      modifies this`interval, this`minInterval, this`peers
      ensures torrent.announce == [] ==> r == Err(NoAnnounceUrl) && State() == old(State())
      ensures torrent.announce != [] ==> r == HttpOutcome(old(State()), reply).1 && State() == HttpOutcome(old(State()), reply).0
    {
      if torrent.announce == [] {
        return Err(NoAnnounceUrl);
      }
      if reply.None? {
        return Err(ConnectFailed);
      }
      var decoded := BDecode(reply.value);
      if decoded.Err? {
        return Err(CommunicationError(Undecodable(decoded.error)));
      }
      var err := ParseTrackerResponse(decoded.value);
      if err.Some? {
        return Err(CommunicationError(err.value));
      }
      return Ok(peers);
    }

    /** `announce`: dispatch on the URL's scheme. */
    method Announce(event: bytes, reply: Option<bytes>) returns (r: Result<seq<Peer>, TrackerError>)
      modifies this`interval, this`minInterval, this`peers
      ensures RouteOf(torrent.announce) == NoUrl ==> r == Err(NoAnnounceUrl) && State() == old(State())
      ensures RouteOf(torrent.announce) == Udp ==> r == Err(UdpNotImplemented) && State() == old(State())
      ensures RouteOf(torrent.announce) == Unsupported ==>
                r == Err(UnsupportedProtocol(torrent.announce)) && State() == old(State())
      ensures RouteOf(torrent.announce) == Http ==>
                r == HttpOutcome(old(State()), reply).1 && State() == HttpOutcome(old(State()), reply).0
    {
      var route := RouteOf(torrent.announce);
      if route == NoUrl {
        return Err(NoAnnounceUrl);
      }
      if route == Http {
        r := HttpAnnounce(event, reply);
      } else if route == Udp {
        return Err(UdpNotImplemented);
      } else {
        return Err(UnsupportedProtocol(torrent.announce));
      }
    }
  }

  /** What an HTTP announce with this reply does to the state, and what it returns. */
  function HttpOutcome(s: Announced, reply: Option<bytes>): (r: (Announced, Result<seq<Peer>, TrackerError>))
    ensures r.1 == Err(ConnectFailed) <==> reply.None?
    ensures r.1.Ok? ==> r.1.value == r.0.peers
    ensures r.1.Err? ==> r.0.peers == s.peers
  {
    match reply
    case None => (s, Err(ConnectFailed))
    case Some(data) =>
      match DecodeBytes(data)
      case Err(e) => (s, Err(CommunicationError(Undecodable(e))))
      case Ok(response) =>
        var (s', err) := Respond(s, response);
        if err.Some? then (s', Err(CommunicationError(err.value))) else (s', Ok(s'.peers))
  }
}
