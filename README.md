# A verified model of a BitTorrent client's core

This project models the core of a small BitTorrent client (`backend/app/`).
It has four parts:

- **Bencoding** (`bencode.dfy`). The decoder reads integers, byte strings, lists and dictionaries from a shared cursor. It returns `None` for a lone `e`. The encoder writes integers, byte strings, lists and dictionaries with sorted keys.
- **The metainfo reader** (`torrent.dfy`). It takes a `.torrent` file from its raw bytes to the announce URL, the announce-list tiers, the optional fields and the `info` record. The `info` record holds the name, the piece length, the 20-byte piece hashes, the private flag, and either a single length or a list of files. From that record come the total size and the file list.
- **The tracker client** (`tracker.dfy`). It covers the peer id, the announce parameters, the compact and the dictionary peer lists, how the tracker's reply updates the interval, the minimum interval and the peers, and the choice between HTTP, UDP and an unsupported scheme.
- **The peer wire protocol** (`peer.dfy`). It covers the 68-byte handshake, the `interested` and `request` messages, and how a `piece` reply is read. Each remote peer has a `PeerConnection`. A `PeerManager` keeps the connected peers in the order they were added.

Python's dynamic values become a `Value` datatype. `End` stands for the decoder's `None`. Python exceptions become `Result`/`Option` error values.

The decoders are imperative, as in the source. They are methods with `while` loops over a byte string and a cursor. Each one is proved equal to a recursive `Parse...` function. The round trip `decode(encode(v)) == v` is proved about those functions.

The two objects that the source updates in place are classes:

- `Torrent` and `TrackerClient`. Their methods carry `modifies` clauses. Their `ensures` relate the new fields to specification functions such as `Load`, `Respond` and `HttpOutcome`.
- `PeerConnection` and `PeerManager`. A socket is modelled by the bytes it delivers, which are a parameter, and by the log `written` of the messages sent to it.

The modules are:

- `Ascii`: bytes, numerals, Python's `sorted`, `find` and slicing.
- `Outcomes`: `Result` and `Option`.
- `Bencode`, with the lemmas in `BencodeCases` and `BencodeProofs`.
- `Metainfo`, with `MetainfoProofs`.
- `Tracker`, with `TrackerProofs`.
- `PeerWire`, with `PeerWireProofs`.

## Model

| member | source | states |
|---|---|---|
| Ascii.Decimal | backend/app/bencode.py:121 | `str(n)` of a natural number is a non-empty run of ASCII digits whose first digit is '0' only for 0 |
| Ascii.DecimalValue | backend/app/bencode.py:27-28 | reading back the digits of `str(n)`, wherever they sit, gives `n` |
| Ascii.DecimalInjective | backend/app/tracker.py:83 | distinct numbers have distinct numerals |
| Ascii.SortedKeys | backend/app/bencode.py:130 | `sorted` on the dictionary's keys lists every key and nothing else |
| Ascii.SortedKeysAscending | backend/app/bencode.py:130 | the sorted keys are strictly ascending in Python's `bytes` order, so each key appears once |
| Ascii.Find | backend/app/torrent.py:85 | `bytes.find` gives the first occurrence at or after the start, or -1 exactly when there is none |
| Ascii.Slice | backend/app/torrent.py:85 | Python slicing with bounds that may be negative or out of range; within range it is the plain subsequence |
| Bencode.DigitRun | backend/app/bencode.py:27-29 | the digit loop stops at the first byte that is not an ASCII digit, or at the end of the input |
| Bencode.ParseInt | backend/app/bencode.py:12-34 | reading an integer, when it succeeds, consumes at least one byte, stays inside the input and yields an integer |
| Bencode.ParseString | backend/app/bencode.py:36-54 | reading a byte string, when it succeeds, consumes at least one byte and yields a byte string |
| Bencode.ParseValue | backend/app/bencode.py:56-85 | a successful read always moves the cursor forward, within the input |
| Bencode.ParseList | backend/app/bencode.py:87-95 | a successful list read moves the cursor forward and yields a list |
| Bencode.ParseDict | backend/app/bencode.py:97-108 | a successful dictionary read moves the cursor forward and yields a dictionary |
| Bencode.DecodeInt | backend/app/bencode.py:12-34 | the loop that reads sign, digits and 'e' returns exactly the reading `ParseInt` defines, errors included |
| Bencode.DecodeString | backend/app/bencode.py:36-54 | the loop that reads the length, ':' and the bytes returns exactly `ParseString` |
| Bencode.Decode | backend/app/bencode.py:56-85 | dispatch on the first byte returns exactly `ParseValue` |
| Bencode.DecodeList | backend/app/bencode.py:87-95 | the list loop returns exactly `ParseList`: it stops at the first `None` |
| Bencode.DecodeDict | backend/app/bencode.py:97-108 | the dictionary loop returns exactly `ParseDict`: it stops at a `None` key and rejects any other non-string key |
| Bencode.BDecode | backend/app/bencode.py:140-142 | `bdecode` is the first value read from position 0 |
| Bencode.Encode | backend/app/bencode.py:110-138 | encoding fails exactly when a `None` sits somewhere inside the value |
| BencodeCases.IntLenient | backend/app/bencode.py:12-34 | any digit run, even empty or with leading zeros, after an optional '-' and before 'e' is read as its value, negated after '-' |
| BencodeCases.IntNeedsEnd | backend/app/bencode.py:31-32 | digits followed by anything but 'e', or by nothing, raise "Expected 'e'" |
| BencodeCases.StringRead | backend/app/bencode.py:53-54 | a length prefix always gives a byte string of at most that length; it has the full length exactly when the input holds that many bytes |
| BencodeCases.StringNeedsColon | backend/app/bencode.py:50-51 | a length not followed by ':' raises "Expected ':'" |
| BencodeCases.EndOnlyFromE | backend/app/bencode.py:82-83 | a read yields `None` if and only if the byte at the cursor is 'e', and then consumes only that byte |
| BencodeCases.UnexpectedLeadingByte | backend/app/bencode.py:84-85 | any other leading byte, or the end of input, raises "Unexpected token" carrying that byte |
| BencodeCases.NonStringKeyAt | backend/app/bencode.py:101-105 | wherever the dictionary loop stands, whatever it has stored, a key that reads as anything but a byte string or `None` is rejected |
| BencodeCases.NonStringKeyAfter | backend/app/bencode.py:101-107 | after any number of well-formed entries, in any key order, a key that is an integer, list or dictionary makes the dictionary fail |
| BencodeCases.NonStringKeyRejected | backend/app/bencode.py:104-105 | `bdecode` rejects a dictionary in which an integer, list or dictionary stands in key position after any number of well-formed entries, whatever follows |
| BencodeCases.DuplicateKeyOverwrites | backend/app/bencode.py:106-107 | a key repeated in a dictionary keeps the later value |
| BencodeCases.KeyThenEnd | backend/app/bencode.py:106-107 | a key followed by 'e' stores `None` and the dictionary goes on after that 'e' |
| BencodeCases.EndAsValue | backend/app/bencode.py:97-108 | "d<key>ee" decodes to a dictionary that maps the key to `None` |
| BencodeCases.LoneEnd | backend/app/bencode.py:82-83 | `bdecode` of a lone 'e' is `None`, whatever follows |
| BencodeProofs.IntRoundTrip | backend/app/bencode.py:121 | decoding the encoding of any integer, negative included, gives it back and consumes exactly the encoding |
| BencodeProofs.StringRoundTrip | backend/app/bencode.py:125 | decoding the encoding of any byte string gives it back and consumes exactly the encoding |
| BencodeProofs.ListRoundTrip | backend/app/bencode.py:127 | decoding the encoding of an encodable list gives it back, item by item |
| BencodeProofs.DictRoundTrip | backend/app/bencode.py:128-136 | decoding the sorted-key encoding of an encodable dictionary gives back the same map |
| BencodeProofs.ItemsRoundTrip | backend/app/bencode.py:87-95 | the list loop over encoded items, then 'e', appends exactly those items |
| BencodeProofs.EntriesRoundTrip | backend/app/bencode.py:97-108 | the dictionary loop over encoded key and value pairs, then 'e', stores exactly those entries |
| BencodeProofs.DictStep | backend/app/bencode.py:101-107 | one dictionary step reads a string key and its value and stores the value under the key |
| BencodeProofs.ItemStep | backend/app/bencode.py:91-94 | one list step reads an encoded value and appends it |
| BencodeProofs.ListEnd | backend/app/bencode.py:92-93 | 'e' ends a list with the items read so far |
| BencodeProofs.DictEnd | backend/app/bencode.py:102-103 | 'e' in key position ends a dictionary with the entries read so far |
| BencodeProofs.RoundTrip | backend/app/bencode.py:56-85 | for every encodable value, decoding its encoding at any position gives the value and the position just after the encoding |
| BencodeProofs.EncodeThenDecode | backend/app/bencode.py:140-146 | `bdecode(bencode(v) + rest) == v` for every value without `None`, whatever bytes follow |
| BencodeProofs.EncodeValueShape | backend/app/bencode.py:120-136 | an encoding is at least 2 bytes; it opens with 'i', 'l' or 'd' for an integer, list or dictionary, and with a digit for a byte string; all but a byte string end with 'e' |
| Metainfo.Texts | backend/app/torrent.py:76 | decoding a tier's URLs gives one text per item, or fails as malformed |
| Metainfo.TierList | backend/app/torrent.py:75-78 | the announce list has one tier per input tier, or fails as malformed |
| Metainfo.Files | backend/app/torrent.py:107-112 | the multi-file loop yields one record per entry, or fails as malformed |
| Metainfo.Info | backend/app/torrent.py:96-133 | every failure of `_parse_info` is a malformed-value error |
| Metainfo.InfoSpan | backend/app/torrent.py:85 | the located span of the `info` value lies inside the file |
| Metainfo.InfoBytes | backend/app/torrent.py:85 | the bytes of the `info` value lie within the file, and a file that does not open a dictionary has none |
| Metainfo.InfoBytesAsWritten | backend/app/torrent.py:85 | the slice the source hashes: when "d8:infod" first occurs at i and the first 'e' from i+8 on is at j, bytes i to j inclusive, ending in 'e'; with the pattern but no 'e', nothing; without the pattern, the file's last byte when that is the first 'e' from index 7 on, and otherwise nothing |
| Metainfo.Load | backend/app/torrent.py:54-94 | an undecodable file is an invalid torrent and a non-dictionary one is malformed; a loaded file's hash is SHA-1 of the slice the source cuts out |
| Metainfo.LoadFields | backend/app/torrent.py:71-94 | a file without `info` does not load; a loaded one has the info record built from `info` and the hash of the cut-out slice |
| Metainfo.LoadRest | backend/app/torrent.py:84-94 | after `info` is found, any failure is a malformed value; success keeps the announce fields, builds the info record from `info`, hashes the cut-out slice, defaults the encoding to "utf-8" and has a comment exactly when the key is present |
| Metainfo.TotalSize | backend/app/torrent.py:135-142 | no info gives 0; a non-empty file list gives the sum of its lengths; otherwise the single length, or 0 without one |
| Metainfo.FileList | backend/app/torrent.py:144-151 | no info gives no files; a non-empty file list gives one path per file, in order; otherwise the torrent's name alone |
| Metainfo.Paths | backend/app/torrent.py:150 | the i-th path is the path of the i-th file |
| Metainfo.FilesFailFrom | backend/app/torrent.py:108-112 | once a file entry fails, the whole loop fails with that error |
| Metainfo.Torrent.Blank | backend/app/torrent.py:42-50 | a new torrent has an empty hash, announce and announce list, and no optional fields |
| Metainfo.Torrent.GetTotalSize | backend/app/torrent.py:135-142 | without info the size is 0; with a non-empty file list it is the sum of the lengths; otherwise the single length, or 0 |
| Metainfo.Torrent.GetFileList | backend/app/torrent.py:144-151 | without info the list is empty; with a non-empty file list it has each file's path in order; otherwise only the name |
| Metainfo.Torrent.LoadTorrentFile | backend/app/torrent.py:54-94 | the method reports exactly the error of the specification `Load` or, on success, holds every field `Load` defines, the hash of the slice the source cuts out included |
| Metainfo.Torrent.LoadRestOfFile | backend/app/torrent.py:84-94 | once `info` is present, the hash (SHA-1 of the slice from the first "d8:infod" to the next 'e'), the optional fields, the encoding and the info record are set as `LoadRest` defines; the announce fields are unchanged |
| Metainfo.Torrent.ParseInfo | backend/app/torrent.py:96-133 | `info` becomes the record `Info` builds, or stays unchanged and the error is reported |
| Metainfo.OpenTorrent | backend/app/torrent.py:35-52 | constructing a torrent succeeds exactly when `Load` does, with a fresh object holding `Load`'s metadata, and otherwise reports `Load`'s error |
| MetainfoProofs.PieceChunks | backend/app/torrent.py:101 | the piece hashes concatenate back to `pieces`; there are ceil(n/20) of them; all are 20 bytes except a non-empty last one |
| MetainfoProofs.ChunksTail | backend/app/torrent.py:101 | the first hash is the first 20 bytes, followed by the hashes of the rest |
| MetainfoProofs.PrivateFlag | backend/app/torrent.py:102 | `private` holds exactly when the key is present with a truthy value; for an integer, exactly when it is non-zero |
| MetainfoProofs.SingleOrMulti | backend/app/torrent.py:105-133 | a torrent has files exactly when `files` is present, and then no length or md5sum; otherwise it has the single `length`; name, piece length and pieces come from their keys |
| MetainfoProofs.FilesInOrder | backend/app/torrent.py:107-112 | the files load if and only if every entry loads, and the i-th record is the i-th entry's |
| MetainfoProofs.TextsInOrder | backend/app/torrent.py:76 | a tier decodes if and only if every URL is a byte string, keeping each URL in place |
| MetainfoProofs.TierListInOrder | backend/app/torrent.py:75-78 | well-shaped tiers load with every URL kept at its tier and position |
| MetainfoProofs.AnnounceListOrder | backend/app/torrent.py:74-78 | the announce list read from a list of tiers keeps every tier and every URL in place |
| MetainfoProofs.MissingInfoRejected | backend/app/torrent.py:81-82 | without `info` no file loads; the missing-info error is reported exactly when `info` is absent and the announce fields before it read well |
| MetainfoProofs.LoadedFields | backend/app/torrent.py:71-94 | a loaded file has the info record built from `info`, the hash of the slice from the first "d8:infod" to the next 'e', the announce fields from their keys, the default encoding "utf-8" and a comment exactly when the key is present |
| MetainfoProofs.InfoSpanDecodes | backend/app/torrent.py:85 | whenever `info` is present, the span found in the file decodes to exactly the `info` value, and it is non-empty |
| MetainfoProofs.InfoHashOfInfoValue | backend/app/torrent.py:85 | the intended info hash of a file holding `info` is SHA-1 of the bytes that the decoder reads as exactly the `info` value |
| MetainfoProofs.InfoHashAsWrittenMisses | backend/app/torrent.py:85 | on a valid file the search for "d8:infod" hashes the empty string, while the `info` value's bytes are non-empty |
| MetainfoProofs.SumLengthsAppend | backend/app/torrent.py:141 | the size sum over two lists of files is the sum of their sums |
| MetainfoProofs.SumLengthsCovers | backend/app/torrent.py:141 | with non-negative lengths the total is non-negative and at least each file's length |
| MetainfoProofs.TotalSizeCases | backend/app/torrent.py:135-142 | no info gives 0; a non-empty file list gives the sum of its lengths, split anywhere; a single file gives its length or 0 |
| MetainfoProofs.TotalSizeCoversFiles | backend/app/torrent.py:140-141 | a multi-file torrent's size covers every one of its files |
| MetainfoProofs.FileListInOrder | backend/app/torrent.py:149-150 | a multi-file torrent lists one path per `files` entry, in order |
| MetainfoProofs.EmptyFilesList | backend/app/torrent.py:140-151 | an empty `files` list counts as falsy: size 0 and the torrent's name as the only file |
| MetainfoProofs.JoinPlain | backend/app/torrent.py:109 | joining non-empty segments without '/' puts exactly one '/' between neighbours |
| MetainfoProofs.JoinAbsoluteResets | backend/app/torrent.py:109 | a segment that starts with '/' discards every segment before it |
| Tracker.GeneratePeerId | backend/app/tracker.py:52-57 | the peer id is 20 bytes: "-PC0001-" and twelve characters from [0-9a-z] |
| Tracker.Picked | backend/app/tracker.py:56 | the i-th character is the alphabet letter at the i-th random pick |
| Tracker.HttpAnnounceParams | backend/app/tracker.py:59-70 | the parameters carry the info hash and peer id, port "6881", compact "1", a `left` made only of digits, and the given event, or a non-empty default when none is given |
| Tracker.CompactPeers | backend/app/tracker.py:72-88 | every peer takes 6 bytes of the data, so there are at most `len(data) // 6` of them (`TrackerProofs.CompactPeersCount` gives exactly that many) |
| Tracker.Respond | backend/app/tracker.py:90-111 | a reply that is not a dictionary changes nothing; a reply that is not taken keeps the peers; the peers change only when a dictionary reply has `peers` |
| Tracker.RouteOf | backend/app/tracker.py:164-172 | no URL is chosen exactly for the empty URL; HTTP only for a URL starting "http" and UDP only for one starting "udp" |
| Tracker.HttpOutcome | backend/app/tracker.py:113-142 | the connection fails exactly when there is no reply; a success returns the stored peers; any error leaves the peers as they were |
| Tracker.TrackerClient.PrepareHttpAnnounce | backend/app/tracker.py:59-70 | the parameters carry the torrent's info hash and the client's peer id, a `left` made only of digits and a non-empty event |
| Tracker.CompactStep | backend/app/tracker.py:80-86 | a 6-byte record gives the peer with its dotted address and big-endian port, followed by the peers of the rest |
| Tracker.ParsePeersCompact | backend/app/tracker.py:72-88 | the loop over records collects exactly `CompactPeers` of the data |
| Tracker.DictPeers | backend/app/tracker.py:105-108 | the dictionary model gives one peer per entry |
| Tracker.TrackerClient.constructor | backend/app/tracker.py:36-50 | a new client has a generated peer id, zero counters, `left` equal to the torrent's total size, intervals 1800 and 300 and no peers |
| Tracker.TrackerClient.ParseTrackerResponse | backend/app/tracker.py:90-111 | the new intervals and peers, and the error reported, are those of `Respond` on the old state |
| Tracker.TrackerClient.HttpAnnounce | backend/app/tracker.py:113-142 | with no announce URL the error is reported and nothing changes; otherwise the result and the new state are those of `HttpOutcome` for the reply |
| Tracker.TrackerClient.Announce | backend/app/tracker.py:154-172 | an empty URL, a "udp" URL and any other scheme are errors that change nothing; an "http" URL behaves as `HttpAnnounce` |
| TrackerProofs.CompactPeersCount | backend/app/tracker.py:76-78 | there are `len(data) // 6` compact peers |
| TrackerProofs.CompactPeerAt | backend/app/tracker.py:80-86 | the k-th peer is read from bytes 6k to 6k+6 |
| TrackerProofs.CompactPeersLayout | backend/app/tracker.py:72-88 | the k-th peer has the dotted address of bytes 6k..6k+4 and port 256*b[6k+4] + b[6k+5] |
| TrackerProofs.TrailingBytesIgnored | backend/app/tracker.py:77-78 | fewer than 6 trailing bytes add no peer |
| TrackerProofs.DottedQuadInjective | backend/app/tracker.py:83 | different 4-byte addresses give different dotted texts |
| TrackerProofs.DictPeersInOrder | backend/app/tracker.py:103-108 | the list loads if and only if every entry is a peer dictionary, keeping each peer in place, and otherwise fails as a bad response |
| TrackerProofs.FailureReasonFirst | backend/app/tracker.py:92-93 | a failure reason is reported before anything is stored, with its text when it is a byte string |
| TrackerProofs.IntervalsOnlyWhenPresent | backend/app/tracker.py:95-99 | `interval` and `min interval` change exactly when the reply has them, to the reply's values |
| TrackerProofs.PeersFromReply | backend/app/tracker.py:101-111 | without `peers` the peers are kept; a byte string gives the compact peers; a list gives the dictionary peers if and only if every entry is valid; any error keeps the old peers |
| TrackerProofs.NonDictionaryReply | backend/app/tracker.py:90-111 | a reply that is not a dictionary changes nothing: an integer or `None` is an error, and a list holding none of the keys is accepted |
| TrackerProofs.AnnounceParamsMeaning | backend/app/tracker.py:59-70 | the parameters carry the info hash and peer id, the counters as decimals, `left` clamped at 0 with no minus sign, port 6881, compact 1, and the event or "started" when it is empty |
| TrackerProofs.RouteCases | backend/app/tracker.py:164-172 | each route is chosen exactly when its URL condition holds |
| TrackerProofs.HttpOutcomeMeaning | backend/app/tracker.py:131-142 | no reply is a connection failure; an undecodable reply changes nothing; success means the reply decoded and was accepted, and the result is the stored peer list |
| TrackerProofs.PeerIdShape | backend/app/tracker.py:52-57 | the peer id is "-PC0001-" followed by the twelve picked characters, in order |
| PeerWire.DefaultBlock | backend/app/peer.py:16-21 | a block request without a length asks for 16384 bytes |
| PeerWire.Be32 | backend/app/peer.py:98-105 | a packed word is 4 bytes |
| PeerWire.ReadBe32 | backend/app/peer.py:110 | an unpacked word is below 2^32 |
| PeerWire.Zeros | backend/app/peer.py:64 | `bytes(n)` is n zero bytes |
| PeerWire.Handshake | backend/app/peer.py:61-67 | the handshake is 28 bytes longer than the two hashes and opens with 19 and the protocol name |
| PeerWire.HandshakeAccepted | backend/app/peer.py:72-78 | an accepted reply is 68 bytes and the info hash it was checked against is 20 bytes |
| PeerWire.RequestMessage | backend/app/peer.py:98-105 | a packed request is 17 bytes with id 6 in its fifth byte |
| PeerWire.ParseBlockReply | backend/app/peer.py:110-125 | data comes back only from a `piece` message (id 7) of length at least 9 that fits in the input, and it is the `length - 9` bytes after the 13-byte header |
| PeerWire.PeerConnection.constructor | backend/app/peer.py:26-41 | a new connection keeps its address and hashes, is choked and not interested both ways, and is not connected |
| PeerWire.PeerConnection.Connect | backend/app/peer.py:43-53 | connecting succeeds exactly when the peer is reachable; only then are the streams open and the connection marked connected |
| PeerWire.PeerConnection.PerformHandshake | backend/app/peer.py:55-83 | with a connection, the handshake is written and accepted exactly when 68 bytes come back with the protocol name and our info hash; otherwise nothing is written and it fails |
| PeerWire.PeerConnection.SendInterested | backend/app/peer.py:85-90 | with a connection, the `interested` message is written and we are interested; otherwise nothing changes |
| PeerWire.PeerConnection.RequestPiece | backend/app/peer.py:92-125 | with a connection and fields that fit, the request is written and the data is what `ParseBlockReply` reads from the reply; otherwise nothing is written and there is no data |
| PeerWire.PeerConnection.Close | backend/app/peer.py:127-133 | closing with an open stream marks the connection not connected; otherwise it stays as it was |
| PeerWire.PeerManager.constructor | backend/app/peer.py:138-142 | a new manager has its hashes and no peers |
| PeerWire.PeerManager.AddPeer | backend/app/peer.py:144-154 | a known address returns its connection unchanged; a new one is added last, with a fresh connected peer, exactly when it connects and its handshake is accepted; otherwise nothing changes |
| PeerWire.PeerManager.GetPeerForPiece | backend/app/peer.py:156-162 | a peer is returned exactly when some peer has the piece, and it is the first such peer in insertion order |
| PeerWire.PeerManager.CloseAll | backend/app/peer.py:164-169 | every peer with an open stream is no longer connected, every other field of every peer is unchanged, and the registry becomes empty |
| PeerWireProofs.Be32RoundTrip | backend/app/peer.py:110 | unpacking a packed word gives the word |
| PeerWireProofs.ReadBe32RoundTrip | backend/app/peer.py:98-105 | packing an unpacked word gives back its 4 bytes |
| PeerWireProofs.HandshakeLayout | backend/app/peer.py:61-67 | the handshake is 68 bytes: 19, the protocol name, 8 zero bytes, the info hash and the peer id |
| PeerWireProofs.HandshakeAcceptedIffSameTorrent | backend/app/peer.py:74-78 | a peer's handshake is accepted if and only if it carries our info hash, whatever its peer id |
| PeerWireProofs.InterestedFraming | backend/app/peer.py:88 | `interested` is the length 1 as a big-endian word, then id 2 |
| PeerWireProofs.RequestLayout | backend/app/peer.py:98-105 | a request is 17 bytes: length 13, id 6, then index, offset and length, each of which reads back as itself |
| PeerWireProofs.RequestOutOfRange | backend/app/peer.py:98-105 | nothing is sent exactly when a field does not fit in 32 bits |
| PeerWireProofs.PieceReplyRoundTrip | backend/app/peer.py:110-120 | a `piece` message gives back exactly its data, whatever follows it |
| PeerWireProofs.KeepAliveGivesNothing | backend/app/peer.py:111-112 | a keep-alive (length 0) gives no data |
| PeerWireProofs.OtherMessageGivesNothing | backend/app/peer.py:114-125 | a message with any id but 7 gives no data |

## Left out

- File access (`os.path.exists`, `open`, `FileNotFoundError`, `os.path.abspath`): the loader takes the file's bytes.
- SHA-1 is a function parameter `sha1` about which nothing is assumed: the model states which bytes are handed to it, not the digest.
- UTF-8 decoding (`.decode('utf-8')`) is not modelled: names, URLs, paths and reasons stay byte strings, and invalid UTF-8 is not an error here.
- Decoding a `str` input (encoded as UTF-8 first) and encoding `str` values or keys: the model has byte strings only, and Python's `bool` (an `int` subclass) is not a separate case.
- The dictionary-key check of `encode` (bencode.py:131-132) cannot fail, because a `Value` dictionary has byte-string keys.
- Every Python exception on a value of the wrong shape is one error, `Malformed` in the metainfo reader and `BadResponse` in the tracker client; the message texts are not modelled.
- Metainfo.Iterate: iterating a non-empty dictionary (Python yields its keys) is treated as malformed.
- Metainfo.Info: a `piece length` or `length` that is not an integer is treated as malformed, while Python would store it as it is.
- Metainfo.Pieces: a non-empty list under `pieces` is treated as malformed, while Python would slice the list.
- `Torrent.__str__` and `Torrent.create_tracker` only format text or construct a tracker.
- Tracker.DictPeer: a dictionary peer whose `port` is not an integer is treated as a bad response, while Python would store it as it is.
- Tracker.TrackerClient.HttpAnnounce: the HTTP request (`urlencode`, `urlopen`, the timeout) is not modelled. The tracker's reply, or its absence when the connection fails, is a parameter, and the announce parameters reach no output. `TrackerProofs.AnnounceParamsMeaning` states what they hold.
- Logging of the announce URL and of peer events is left out.
- The unqualified `from bencode import bdecode` in `http_announce` is taken to resolve to the same decoder. If it fails to import, Python reports a communication error, which the model does not distinguish.
- `udp_announce` is modelled only as its `NotImplementedError`.
- Randomness: the twelve random picks of the peer id are a parameter.
- Sockets and asyncio: a connection attempt is a boolean `reachable`, what a peer sends is a byte-string parameter, and writes are appended to `written`. `drain`, `wait_closed`, time-outs, the `asyncio.Lock` and any interleaving of coroutines are not modelled.
- PeerWire.PeerConnection.Close: `writer.close()` is not modelled beyond marking the connection not connected; the writer stays set, as in the source.
- The `reader` and `writer` attributes are one flag, `hasStream`.
- `bitfield`, `piecesHave` and the speeds are kept as fields. Nothing in the core changes them after construction.

## Findings

| source | as written | input that shows it | evidently intended | confidence | as-written member | corrected member |
|---|---|---|---|---|---|---|
| backend/app/torrent.py:85 | the info hash is SHA-1 of the slice from the first "d8:infod" to the next 'e'. A real file writes the key as "4:info", so the search gives -1. The slice then starts at the file's last byte, so it is empty, or just the final 'e'. The hash does not depend on `info` | "d4:infod1:ai1eee" (a valid file whose `info` is {a: 1}) | SHA-1 of the bencoded `info` value, the bytes from the 'd' that opens it to the 'e' that closes it | not executed | Metainfo.InfoBytesAsWritten, which `Load` and `Torrent.LoadRestOfFile` hash as the source does, shown by MetainfoProofs.InfoHashAsWrittenMisses | Metainfo.InfoBytes and Metainfo.IntendedInfoHash, proved by MetainfoProofs.InfoSpanDecodes and MetainfoProofs.InfoHashOfInfoValue |
