/** What the tracker model guarantees: the compact peer layout, the reply's effect and the dispatch. */
module TrackerProofs {
  import opened Ascii
  import opened Outcomes
  import opened Bencode
  import opened Tracker

  // ---------------------------------------------------------------------------
  // Compact peers.

  /** A compact list of `n` bytes holds `n / 6` peers. */
  lemma {:induction false} CompactPeersCount(b: bytes)
    ensures |CompactPeers(b)| == |b| / PeerRecord
    decreases |b|
  {
    if |b| >= PeerRecord {
      CompactPeersCount(b[PeerRecord..]);
    }
  }

  /** The `k`-th peer is read from the `k`-th record. */
  lemma {:induction false} CompactPeerAt(b: bytes, k: nat)
    requires k < |b| / PeerRecord
    ensures k < |CompactPeers(b)|
    ensures CompactPeers(b)[k] == CompactPeer(b[6 * k..6 * k + PeerRecord])
    decreases k
  {
    CompactPeersCount(b);
    if k == 0 {
      assert b[..PeerRecord] == b[0..PeerRecord];
    } else {
      var rest := b[PeerRecord..];
      CompactPeerAt(rest, k - 1);
      assert CompactPeers(b)[k] == CompactPeers(rest)[k - 1];
      assert rest[6 * (k - 1)..6 * (k - 1) + PeerRecord]
          == b[6 * k..6 * k + PeerRecord];
    }
  }

  /**
   * The `k`-th peer's address is the dotted text of bytes `6k .. 6k + 4`
   * and its port the big-endian value of the next two.
   */
  lemma CompactPeersLayout(b: bytes)
    ensures |CompactPeers(b)| == |b| / PeerRecord
    ensures forall k :: 0 <= k < |b| / PeerRecord ==>
              CompactPeers(b)[k] == Peer(DottedQuad(b[6 * k..6 * k + 4]),
                                         256 * (b[6 * k + 4] as int) + b[6 * k + 5] as int,
                                         None)
  {
    CompactPeersCount(b);
    forall k | 0 <= k < |b| / PeerRecord
      ensures CompactPeers(b)[k] == Peer(DottedQuad(b[6 * k..6 * k + 4]),
                                         256 * (b[6 * k + 4] as int) + b[6 * k + 5] as int,
                                         None)
    {
      CompactPeerAt(b, k);
      var g := b[6 * k..6 * k + PeerRecord];
      assert g[..4] == b[6 * k..6 * k + 4];
      assert g[4] == b[6 * k + 4] && g[5] == b[6 * k + 5];
    }
  }

  /** Bytes after the last whole record are ignored. */
  lemma {:induction false} TrailingBytesIgnored(b: bytes, tail: bytes)
    requires |b| % PeerRecord == 0 && |tail| < PeerRecord
    ensures CompactPeers(b + tail) == CompactPeers(b)
    decreases |b|
  {
    if b != [] {
      assert (b + tail)[..PeerRecord] == b[..PeerRecord];
      assert (b + tail)[PeerRecord..] == b[PeerRecord..] + tail;
      TrailingBytesIgnored(b[PeerRecord..], tail);
    }
  }

  /** In a numeral followed by a dot, that dot is the first one. */
  lemma FirstDot(u: bytes, v: bytes)
    requires AllDigits(u)
    ensures (u + [Dot] + v)[|u|] == Dot
    ensures forall j :: 0 <= j < |u| ==> (u + [Dot] + v)[j] != Dot
  {
  }

  /** A numeral and a dot-free text can be told apart at the first dot. */
  lemma SplitAtDot(u: bytes, v: bytes, u': bytes, v': bytes)
    requires AllDigits(u) && AllDigits(u')
    requires u + [Dot] + v == u' + [Dot] + v'
    ensures u == u' && v == v'
  {
    var w := u + [Dot] + v;
    FirstDot(u, v);
    FirstDot(u', v');
    assert |u| == |u'|;
    assert u == w[..|u|] == u';
    assert v == w[|u| + 1..] == v';
  }

  /** The numerals of three bytes, dot-separated. */
  function Triple(x: byte, y: byte, z: byte): bytes {
    Decimal(x) + [Dot] + (Decimal(y) + [Dot] + Decimal(z))
  }

  lemma DottedQuadHead(a: bytes)
    requires |a| == 4
    ensures DottedQuad(a) == Decimal(a[0]) + [Dot] + Triple(a[1], a[2], a[3])
  {
  }

  lemma TripleInjective(x: byte, y: byte, z: byte, x': byte, y': byte, z': byte)
    requires Triple(x, y, z) == Triple(x', y', z')
    ensures x == x' && y == y' && z == z'
  {
    SplitAtDot(Decimal(x), Decimal(y) + [Dot] + Decimal(z), Decimal(x'), Decimal(y') + [Dot] + Decimal(z'));
    SplitAtDot(Decimal(y), Decimal(z), Decimal(y'), Decimal(z'));
    DecimalInjective(x, x');
    DecimalInjective(y, y');
    DecimalInjective(z, z');
  }

  /** The dotted text of an address determines the address. */
  lemma DottedQuadInjective(a: bytes, b: bytes)
    requires |a| == 4 && |b| == 4
    requires DottedQuad(a) == DottedQuad(b)
    ensures a == b
  {
    DottedQuadHead(a);
    DottedQuadHead(b);
    SplitAtDot(Decimal(a[0]), Triple(a[1], a[2], a[3]), Decimal(b[0]), Triple(b[1], b[2], b[3]));
    DecimalInjective(a[0], b[0]);
    TripleInjective(a[1], a[2], a[3], b[1], b[2], b[3]);
    assert a == [a[0], a[1], a[2], a[3]] && b == [b[0], b[1], b[2], b[3]];
  }

  /** A dictionary-model peer list is taken whole, in order, or not at all. */
  lemma {:induction false} DictPeersInOrder(items: seq<Value>)
    ensures DictPeers(items).Ok? <==> forall i :: 0 <= i < |items| ==> DictPeer(items[i]).Ok?
    ensures DictPeers(items).Ok? ==>
              forall i :: 0 <= i < |items| ==> DictPeers(items).value[i] == DictPeer(items[i]).value
    ensures DictPeers(items).Err? ==> DictPeers(items).error == BadResponse
  {
    if items != [] {
      DictPeersInOrder(items[1..]);
      if DictPeers(items).Ok? {
        forall i | 1 <= i < |items|
          ensures DictPeers(items).value[i] == DictPeer(items[i]).value
        {
          assert items[i] == items[1..][i - 1];
        }
      }
      if DictPeer(items[0]).Ok? && DictPeers(items[1..]).Err? {
        var i :| 0 <= i < |items[1..]| && DictPeer(items[1..][i]).Err?;
        assert items[i + 1] == items[1..][i];
      }
    }
  }

  // ---------------------------------------------------------------------------
  // The tracker's reply.

  /** A reply carrying `failure reason` changes nothing and is an error. */
  lemma FailureReasonFirst(s: Announced, d: map<bytes, Value>)
    requires FailureKey in d
    ensures Respond(s, Dict(d)).0 == s
    ensures Respond(s, Dict(d)).1.Some?
    ensures d[FailureKey].Bytes? ==> Respond(s, Dict(d)).1 == Some(FailureReason(d[FailureKey].b))
    ensures !d[FailureKey].Bytes? ==> Respond(s, Dict(d)).1 == Some(BadResponse)
  {
  }

  /**
   * Without a failure, `interval` and `min interval` take the reply's
   * values when it has them and keep their own otherwise, whether or not
   * the peers could be read.
   */
  lemma IntervalsOnlyWhenPresent(s: Announced, d: map<bytes, Value>)
    requires FailureKey !in d
    ensures Respond(s, Dict(d)).0.interval == (if IntervalKey in d then d[IntervalKey] else s.interval)
    ensures Respond(s, Dict(d)).0.minInterval == (if MinIntervalKey in d then d[MinIntervalKey] else s.minInterval)
  {
  }

  /**
   * Without a failure, the peers are replaced by those the reply lists, in
   * either model, or kept when the reply has none; a peer list that cannot
   * be read leaves the old peers and is the only error.
   */
  lemma PeersFromReply(s: Announced, d: map<bytes, Value>)
    requires FailureKey !in d
    ensures PeersKey !in d ==> Respond(s, Dict(d)).1 == None && Respond(s, Dict(d)).0.peers == s.peers
    ensures PeersKey in d && d[PeersKey].Bytes? ==>
              Respond(s, Dict(d)).1 == None && Respond(s, Dict(d)).0.peers == CompactPeers(d[PeersKey].b)
    ensures PeersKey in d && d[PeersKey].List? ==>
              (Respond(s, Dict(d)).1 == None <==> DictPeers(d[PeersKey].items).Ok?)
    ensures PeersKey in d && d[PeersKey].List? && DictPeers(d[PeersKey].items).Ok? ==>
              Respond(s, Dict(d)).0.peers == DictPeers(d[PeersKey].items).value
    ensures Respond(s, Dict(d)).1.Some? ==> Respond(s, Dict(d)).0.peers == s.peers
  {
  }

  /** A reply that is a number or `None` is rejected; a list or string without any key is ignored. */
  lemma NonDictionaryReply(s: Announced, response: Value)
    requires !response.Dict?
    ensures Respond(s, response).0 == s
    ensures (response.Int? || response.End?) ==> Respond(s, response).1 == Some(BadResponse)
    ensures (response.List? && Bytes(FailureKey) !in response.items && Bytes(IntervalKey) !in response.items
             && Bytes(MinIntervalKey) !in response.items && Bytes(PeersKey) !in response.items)
              ==> Respond(s, response).1 == None
  {
  }

  // ---------------------------------------------------------------------------
  // Announcing.

  /**
   * The parameters: `left` is never negative and reads back as the size
   * still to fetch, clamped at zero; an empty event means "started"; the
   * counters read back as themselves.
   */
  lemma AnnounceParamsMeaning(infoHash: bytes, peerId: bytes, uploaded: nat, downloaded: nat,
                              left: int, event: bytes)
    ensures var p := HttpAnnounceParams(infoHash, peerId, uploaded, downloaded, left, event);
      && p.infoHash == infoHash && p.peerId == peerId
      && p.left[0] != Minus
      && DigitsAt(p.left, 0, |p.left|) == (if left < 0 then 0 else left)
      && DigitsAt(p.uploaded, 0, |p.uploaded|) == uploaded
      && DigitsAt(p.downloaded, 0, |p.downloaded|) == downloaded
      && p.compact == Str("1") && p.port == Str("6881")
      && (event == [] ==> p.event == Str("started"))
      && (event != [] ==> p.event == event)
  {
    var p := HttpAnnounceParams(infoHash, peerId, uploaded, downloaded, left, event);
    DecimalValue(p.left, 0, if left < 0 then 0 else left);
    DecimalValue(p.uploaded, 0, uploaded);
    DecimalValue(p.downloaded, 0, downloaded);
    assert IsDigit(p.left[0]);
  }

  /** The URL's scheme decides the protocol: "http" (and so "https") and "udp" never overlap. */
  lemma RouteCases(url: bytes)
    ensures RouteOf(url) == NoUrl <==> url == []
    ensures RouteOf(url) == Http <==> StartsWith(url, Str("http"))
    ensures RouteOf(url) == Udp <==> StartsWith(url, Str("udp"))
    ensures RouteOf(url) == Unsupported <==> url != [] && !StartsWith(url, Str("http")) && !StartsWith(url, Str("udp"))
  {
    assert Str("http")[0] != Str("udp")[0];
  }

  /** A connection or decoding failure leaves the state alone; a success returns the stored peers. */
  lemma HttpOutcomeMeaning(s: Announced, reply: Option<bytes>)
    ensures reply.None? ==> HttpOutcome(s, reply) == (s, Err(ConnectFailed))
    ensures reply.Some? && DecodeBytes(reply.value).Err? ==> HttpOutcome(s, reply).0 == s
    ensures HttpOutcome(s, reply).1.Ok? ==>
              reply.Some? && DecodeBytes(reply.value).Ok?
              && Respond(s, DecodeBytes(reply.value).value).1 == None
              && HttpOutcome(s, reply).1.value == HttpOutcome(s, reply).0.peers
  {
  }

  /** The peer id is "-PC0001-" and twelve characters drawn from [0-9a-z]. */
  lemma PeerIdShape(picks: seq<nat>)
    requires |picks| == 12 && forall i :: 0 <= i < |picks| ==> picks[i] < |PeerIdAlphabet|
    ensures var id := GeneratePeerId(picks);
      |id| == 20 && id[..8] == Str("-PC0001-")
      && forall i :: 8 <= i < 20 ==> id[i] == PeerIdAlphabet[picks[i - 8]]
  {
  }
}
