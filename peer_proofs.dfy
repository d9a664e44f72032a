/** What the peer wire model guarantees about the bytes on the wire. */
module PeerWireProofs {
  import opened Ascii
  import opened Outcomes
  import opened PeerWire

  /** Reading back a packed word gives the word. */
  lemma Be32RoundTrip(n: int)
    requires 0 <= n < Word
    ensures ReadBe32(Be32(n)) == n
  {
    var w := Be32(n);
    assert n / 0x1_0000 == n / 0x100_0000 * 256 + n / 0x1_0000 % 256;
    assert n / 256 == n / 0x1_0000 * 256 + n / 256 % 256;
    assert n == n / 256 * 256 + n % 256;
  }

  /** Packing a word read from four bytes gives back those bytes. */
  lemma ReadBe32RoundTrip(w: bytes)
    requires |w| == 4
    ensures Be32(ReadBe32(w)) == w
  {
    var n := ReadBe32(w);
    assert n % 256 == w[3];
    assert n / 256 == (w[0] as int * 256 + w[1] as int) * 256 + w[2] as int;
    assert n / 0x1_0000 == w[0] as int * 256 + w[1] as int;
    assert n / 0x100_0000 == w[0] as int;
  }

  /** With a 20-byte info hash and peer id, the handshake is 68 bytes laid out field by field. */
  lemma HandshakeLayout(infoHash: bytes, peerId: bytes)
    requires |infoHash| == 20 && |peerId| == 20
    ensures var h := Handshake(infoHash, peerId);
      |h| == HandshakeLength && h[0] == 19 && h[1..20] == ProtocolName
      && h[20..28] == Zeros(8) && h[28..48] == infoHash && h[48..] == peerId
  {
    var h := Handshake(infoHash, peerId);
    assert |ProtocolName| == 19;
    assert h == [19] + ProtocolName + Zeros(8) + infoHash + peerId;
    assert h[1..20] == ProtocolName;
    assert h[20..28] == Zeros(8);
    assert h[28..48] == infoHash;
    assert h[48..] == peerId;
  }

  /**
   * A handshake built for the same torrent is accepted, whoever sends it;
   * one built for another torrent is rejected.
   */
  lemma HandshakeAcceptedIffSameTorrent(infoHash: bytes, peerId: bytes, ours: bytes)
    requires |infoHash| == 20 && |peerId| == 20
    ensures HandshakeAccepted(Handshake(infoHash, peerId), ours) <==> infoHash == ours
  {
    HandshakeLayout(infoHash, peerId);
  }

  /** The `interested` message is the length 1 as a word, then id 2 (`struct.pack("!IB", 1, 2)`). */
  lemma InterestedFraming()
    ensures InterestedMessage == Be32(1) + [2]
  {
  }

  /**
   * A request is 17 bytes: the length 13, the id 6, then the index, offset
   * and length, each a big-endian word that reads back as itself.
   */
  lemma RequestLayout(index: int, offset: int, length: int)
    requires 0 <= index < Word && 0 <= offset < Word && 0 <= length < Word
    ensures RequestMessage(index, offset, length).Some?
    ensures var m := RequestMessage(index, offset, length).value;
      |m| == 17 && m[..4] == [0, 0, 0, 13] && m[4] == RequestId
      && ReadBe32(m[5..9]) == index && ReadBe32(m[9..13]) == offset && ReadBe32(m[13..17]) == length
  {
    var m := RequestMessage(index, offset, length).value;
    assert m[5..9] == Be32(index);
    assert m[9..13] == Be32(offset);
    assert m[13..17] == Be32(length);
    Be32RoundTrip(index);
    Be32RoundTrip(offset);
    Be32RoundTrip(length);
  }

  /** A request the packer cannot encode sends nothing. */
  lemma RequestOutOfRange(index: int, offset: int, length: int)
    ensures RequestMessage(index, offset, length).None? <==>
              !(0 <= index < Word) || !(0 <= offset < Word) || !(0 <= length < Word)
  {
  }

  /** A `piece` message hands back exactly its data, whatever follows it on the stream. */
  lemma PieceReplyRoundTrip(index: int, offset: int, data: bytes, rest: bytes)
    requires 0 <= index < Word && 0 <= offset < Word && 9 + |data| < Word
    ensures ParseBlockReply(PieceMessage(index, offset, data) + rest) == Some(data)
  {
    var input := PieceMessage(index, offset, data) + rest;
    Be32RoundTrip(9 + |data|);
    assert input[..4] == Be32(9 + |data|);
    assert ReadBe32(input) == ReadBe32(input[..4]);
    assert input[13..4 + 9 + |data|] == data;
  }

  /** A keep-alive (length 0) gives no data. */
  lemma KeepAliveGivesNothing(rest: bytes)
    ensures ParseBlockReply([0, 0, 0, 0] + rest) == None
  {
  }

  /** A message with any id other than `piece` gives no data. */
  lemma OtherMessageGivesNothing(length: int, id: byte, rest: bytes)
    requires 0 < length < Word && id != PieceId
    ensures ParseBlockReply(Be32(length) + [id] + rest) == None
  {
    var input := Be32(length) + [id] + rest;
    assert input[4] == id;
  }
}
