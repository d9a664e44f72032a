/**
 * The peer wire protocol as the client speaks it: the 68-byte handshake,
 * the `interested` and `request` messages and the reply to a request, one
 * `PeerConnection` per remote peer and a `PeerManager` that keeps the
 * connected peers in the order they were added.
 *
 * A socket is modelled by what it delivers and what was written to it: a
 * method that reads takes the bytes the peer sends as a parameter, and
 * every write is appended to `written`. Whether a connection can be opened
 * is a boolean parameter.
 */
module PeerWire {
  import opened Ascii
  import opened Outcomes

  /** `2**14`, the block length a request asks for unless told otherwise. */
  const DefaultBlockLength: nat := 16384
  /** One past the largest value `struct.pack("!I")` accepts. */
  const Word: nat := 0x1_0000_0000
  const HandshakeLength: nat := 68
  const ProtocolName: bytes := Str("BitTorrent protocol")
  const InterestedMessage: bytes := [0, 0, 0, 1, 2]
  const RequestId: byte := 6
  const PieceId: byte := 7

  /** A block of a piece to ask a peer for. */
  datatype BlockRequest = BlockRequest(pieceIndex: int, offset: int, length: int)

  /** `BlockRequest(piece_index, offset)`, with the default length. */
  function DefaultBlock(pieceIndex: int, offset: int): (r: BlockRequest)
    ensures r.pieceIndex == pieceIndex && r.offset == offset && r.length == 16384
  {
    BlockRequest(pieceIndex, offset, DefaultBlockLength)
  }

  // ---------------------------------------------------------------------------
  // Big-endian 32-bit words.

  /** `struct.pack("!I", n)`. */
  function Be32(n: int): (r: bytes)
    requires 0 <= n < Word
    ensures |r| == 4
  {
    [n / 0x100_0000, n / 0x1_0000 % 256, n / 256 % 256, n % 256]
  }

  /** `struct.unpack("!I", w)[0]` of the first four bytes of `w`. */
  function ReadBe32(w: bytes): (r: nat)
    requires |w| >= 4
    ensures r < Word
  {
    ((w[0] as int * 256 + w[1] as int) * 256 + w[2] as int) * 256 + w[3] as int
  }

  // ---------------------------------------------------------------------------
  // Messages.

  function Zeros(n: nat): (r: bytes)
    ensures |r| == n && forall i :: 0 <= i < n ==> r[i] == 0
  {
    if n == 0 then [] else [0] + Zeros(n - 1)
  }

  /** The handshake `perform_handshake` sends: the name's length, the name, 8 reserved bytes, the hashes. */
  function Handshake(infoHash: bytes, peerId: bytes): (r: bytes)
    ensures |r| == 28 + |infoHash| + |peerId|
    ensures r[0] == 19 && r[1..20] == ProtocolName
  {
    [19] + ProtocolName + Zeros(8) + infoHash + peerId
  }

  /** The test `perform_handshake` applies to the 68 bytes it reads. */
  predicate HandshakeAccepted(response: bytes, infoHash: bytes)
    ensures HandshakeAccepted(response, infoHash) ==> |response| == HandshakeLength && |infoHash| == 20
  {
    |response| == HandshakeLength && response[1..20] == ProtocolName && response[28..48] == infoHash
  }

  /** `struct.pack("!IBIII", 13, 6, index, offset, length)`; `None` when a value does not fit (struct.error). */
  function RequestMessage(index: int, offset: int, length: int): (r: Option<bytes>)
    ensures r.Some? ==> |r.value| == 17 && r.value[4] == RequestId
  {
    if 0 <= index < Word && 0 <= offset < Word && 0 <= length < Word then
      Some(Be32(13) + [RequestId] + Be32(index) + Be32(offset) + Be32(length))
    else None
  }

  /**
   * What `request_piece` makes of the bytes the peer sends back: the length
   * prefix, the id, the piece index and offset, then `length - 9` bytes of
   * data. A keep-alive (length 0), any other id, a negative data length or a
   * stream that ends early gives no data.
   */
  function ParseBlockReply(input: bytes): (r: Option<bytes>)
    ensures r.Some? ==>
              |input| >= 13 && ReadBe32(input) >= 9 && input[4] == PieceId
              && |r.value| == ReadBe32(input) - 9 && 4 + ReadBe32(input) <= |input|
              && r.value == input[13..13 + |r.value|]
  {
    if |input| < 4 then None
    else
      var length := ReadBe32(input);
      if length == 0 then None
      else if |input| < 5 || input[4] != PieceId then None
      else if |input| < 13 || length < 9 || |input| < 4 + length then None
      else Some(input[13..4 + length])
  }

  /** A `piece` message carrying `data`, as a peer would send it. */
  function PieceMessage(index: int, offset: int, data: bytes): bytes
    requires 0 <= index < Word && 0 <= offset < Word && 9 + |data| < Word
  {
    Be32(9 + |data|) + [PieceId] + Be32(index) + Be32(offset) + data
  }

  // ---------------------------------------------------------------------------
  // One connection.

  class PeerConnection {
    const ip: bytes
    const port: int
    const peerId: bytes
    const infoHash: bytes
    /** The reader and writer are open. */
    var hasStream: bool
    var bitfield: Option<bytes>
    var amChoking: bool
    var amInterested: bool
    var peerChoking: bool
    var peerInterested: bool
    var connected: bool
    var piecesHave: set<int>
    var downloadSpeed: int
    var uploadSpeed: int
    /** Every message written to the peer, in order. */
    var written: seq<bytes>

    /** A session that is not yet connected: choked both ways, interested neither way. */
    constructor (ip: bytes, port: int, peerId: bytes, infoHash: bytes)
      ensures this.ip == ip && this.port == port && this.peerId == peerId && this.infoHash == infoHash
      ensures !hasStream && bitfield == None && written == []
      ensures amChoking && peerChoking && !amInterested && !peerInterested
      ensures !connected && piecesHave == {} && downloadSpeed == 0 && uploadSpeed == 0
    {
      this.ip, this.port, this.peerId, this.infoHash := ip, port, peerId, infoHash;
      hasStream, bitfield, written := false, None, [];
      amChoking, amInterested, peerChoking, peerInterested := true, false, true, false;
      connected, piecesHave := false, {};
      downloadSpeed, uploadSpeed := 0, 0;
    }

    /** `connect`: `reachable` says whether the connection could be opened. */
    method Connect(reachable: bool) returns (ok: bool)
      modifies this`hasStream, this`connected
      ensures ok == reachable
      ensures reachable ==> hasStream && connected
      ensures !reachable ==> hasStream == old(hasStream) && connected == old(connected)
    {
      if reachable {
        hasStream, connected := true, true;
      }
      ok := reachable;
    }

    /** `perform_handshake`: `reply` is what the peer sends back. */
    method PerformHandshake(reply: bytes) returns (ok: bool)
      modifies this`written
      ensures !(connected && hasStream) ==> !ok && written == old(written)
      ensures connected && hasStream ==>
                written == old(written) + [Handshake(infoHash, peerId)]
                && ok == (|reply| >= HandshakeLength && HandshakeAccepted(reply[..HandshakeLength], infoHash))
    {
      if !connected || !hasStream {
        return false;
      }
      written := written + [[19] + ProtocolName + Zeros(8) + infoHash + peerId];
      if |reply| < HandshakeLength {
        return false;   // readexactly raised
      }
      var response := reply[..HandshakeLength];
      ok := |response| == HandshakeLength && response[1..20] == ProtocolName && response[28..48] == infoHash;
    }

    /** `send_interested`: only a connected session writes and becomes interested. */
    method SendInterested()
      modifies this`written, this`amInterested
      ensures connected && hasStream ==> written == old(written) + [InterestedMessage] && amInterested
      ensures !(connected && hasStream) ==> written == old(written) && amInterested == old(amInterested)
    {
      if connected && hasStream {
        written := written + [InterestedMessage];
        amInterested := true;
      }
    }

    /** `request_piece`: `reply` is what the peer sends back. */
    method RequestPiece(pieceIndex: int, block: BlockRequest, reply: bytes) returns (data: Option<bytes>)
      modifies this`written
      ensures !(connected && hasStream) ==> data == None && written == old(written)
      ensures connected && hasStream && RequestMessage(pieceIndex, block.offset, block.length).None? ==>
                data == None && written == old(written)
      ensures connected && hasStream && RequestMessage(pieceIndex, block.offset, block.length).Some? ==>
                written == old(written) + [RequestMessage(pieceIndex, block.offset, block.length).value]
                && data == ParseBlockReply(reply)
    {
      if !connected || !hasStream {
        return None;
      }
      var message := RequestMessage(pieceIndex, block.offset, block.length);
      if message.None? {
        return None;
      }
      written := written + [message.value];
      data := ParseBlockReply(reply);
    }

    /** Every field of the session but `connected` is as it was. */
    twostate predicate OnlyConnectionChanged()
      reads this
    {
      && hasStream == old(hasStream) && written == old(written)
      && bitfield == old(bitfield) && piecesHave == old(piecesHave)
      && amChoking == old(amChoking) && amInterested == old(amInterested)
      && peerChoking == old(peerChoking) && peerInterested == old(peerInterested)
      && downloadSpeed == old(downloadSpeed) && uploadSpeed == old(uploadSpeed)
    }

    /** `close`: a session with an open stream is no longer connected. */
    method Close()
      modifies this`connected
      ensures connected == (old(connected) && !hasStream)
    {
      if hasStream {
        connected := false;
      }
    }
  }

  // ---------------------------------------------------------------------------
  // The registry.

  type Address = (bytes, int)

  class PeerManager {
    const infoHash: bytes
    const peerId: bytes
    var peers: map<Address, PeerConnection>
    /** The keys of `peers` in the order they were added (a Python dict's order). */
    var order: seq<Address>

    /** `order` lists each key of `peers` exactly once. */
    predicate Valid()
      reads this
    {
      peers.Keys == (set i | 0 <= i < |order| :: order[i])
      && forall i, j :: 0 <= i < j < |order| ==> order[i] != order[j]
    }

    constructor (infoHash: bytes, peerId: bytes)
      ensures this.infoHash == infoHash && this.peerId == peerId
      ensures peers == map[] && order == [] && Valid()
    {
      this.infoHash, this.peerId := infoHash, peerId;
      peers, order := map[], [];
    }

    /**
     * `add_peer`: `reachable` says whether the connection opens and `reply`
     * is the peer's handshake.
     */
    method AddPeer(ip: bytes, port: int, reachable: bool, reply: bytes) returns (r: Option<PeerConnection>)
      requires Valid()
      modifies this`peers, this`order
      ensures Valid()
      ensures (ip, port) in old(peers) ==>
                r == Some(old(peers)[(ip, port)]) && peers == old(peers) && order == old(order)
      ensures (ip, port) !in old(peers) ==>
                (r.Some? <==> reachable && |reply| >= HandshakeLength
                              && HandshakeAccepted(reply[..HandshakeLength], infoHash))
      ensures (ip, port) !in old(peers) && r.Some? ==>
                fresh(r.value) && r.value.ip == ip && r.value.port == port && r.value.infoHash == infoHash
                && r.value.peerId == peerId && r.value.connected
                && peers == old(peers)[(ip, port) := r.value] && order == old(order) + [(ip, port)]
      ensures r.None? ==> peers == old(peers) && order == old(order)
    {
      if (ip, port) in peers {
        return Some(peers[(ip, port)]);
      }
      var peer := new PeerConnection(ip, port, peerId, infoHash);
      var connected := peer.Connect(reachable);
      if !connected {
        return None;
      }
      var shook := peer.PerformHandshake(reply);
      if !shook {
        return None;
      }
      ghost var before := order;
      peers := peers[(ip, port) := peer];
      order := order + [(ip, port)];
      assert (set i | 0 <= i < |order| :: order[i]) == (set i | 0 <= i < |before| :: before[i]) + {(ip, port)} by {
        forall i | 0 <= i < |before|
          ensures before[i] in (set i | 0 <= i < |order| :: order[i])
        {
          assert order[i] == before[i];
        }
        assert order[|before|] == (ip, port);
      }
      return Some(peer);
    }

    /** `get_peer_for_piece`: the first peer, in the order they were added, that has the piece. */
    method GetPeerForPiece(index: int) returns (r: Option<PeerConnection>)
      requires Valid()
      ensures r.Some? <==> exists i :: 0 <= i < |order| && index in peers[order[i]].piecesHave
      ensures r.Some? ==> exists i :: (0 <= i < |order| && r.value == peers[order[i]]
                && index in r.value.piecesHave
                && forall j :: 0 <= j < i ==> index !in peers[order[j]].piecesHave)
    {
      var i := 0;
      while i < |order|
        invariant 0 <= i <= |order|
        invariant forall j :: 0 <= j < i ==> index !in peers[order[j]].piecesHave
      {
        var peer := peers[order[i]];
        if index in peer.piecesHave {
          return Some(peer);
        }
        i := i + 1;
      }
      return None;
    }

    /** `close_all`: every session is closed, then the registry is emptied. */
    method CloseAll()
      requires Valid()
      modifies this`peers, this`order, peers.Values
      ensures peers == map[] && order == [] && Valid()
      ensures forall p :: p in old(peers).Values ==> p.connected == (old(p.connected) && !old(p.hasStream))
      ensures forall p :: p in old(peers).Values ==> p.OnlyConnectionChanged()
    {
      CloseSessions(peers, order);
      peers, order := map[], [];
    }
  }

  /** The loop of `close_all`: `close` on the session of every key, in order. */
  method CloseSessions(sessions: map<Address, PeerConnection>, keys: seq<Address>)
    requires sessions.Keys == (set i | 0 <= i < |keys| :: keys[i])
    modifies sessions.Values
    ensures forall p :: p in sessions.Values ==> p.connected == (old(p.connected) && !old(p.hasStream))
    ensures forall p :: p in sessions.Values ==> p.OnlyConnectionChanged()
  {
    var i := 0;
    ghost var closed: set<PeerConnection> := {};
    while i < |keys|
      invariant 0 <= i <= |keys|
      invariant forall j :: 0 <= j < i ==> sessions[keys[j]] in closed
      invariant forall p :: p in sessions.Values ==>
                  p.connected == (old(p.connected) && (p in closed ==> !old(p.hasStream)))
      invariant forall p :: p in sessions.Values ==> p.OnlyConnectionChanged()
    {
      var peer := sessions[keys[i]];
      peer.Close();
      closed := closed + {peer};
      i := i + 1;
    }
    EveryValueListed(sessions, keys, closed);
  }

  /** When every listed key's session is in `closed` and every key is listed, every session is. */
  lemma EveryValueListed(sessions: map<Address, PeerConnection>, keys: seq<Address>, closed: set<PeerConnection>)
    requires sessions.Keys == (set i | 0 <= i < |keys| :: keys[i])
    requires forall j :: 0 <= j < |keys| ==> sessions[keys[j]] in closed
    ensures sessions.Values <= closed
  {
    forall p | p in sessions.Values
      ensures p in closed
    {
      var k :| k in sessions && sessions[k] == p;
      var j :| 0 <= j < |keys| && keys[j] == k;
    }
  }
}
