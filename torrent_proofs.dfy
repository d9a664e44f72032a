/**
 * What the metainfo reader promises: the piece hashes cut the `pieces` string
 * into 20-byte slices, the private flag, the single-file and multi-file
 * shapes, the order of files and tracker tiers, the rejection of a file
 * without `info`, the total size and file list, and which bytes the info hash
 * is taken over.
 */
module MetainfoProofs {
  import opened Ascii
  import opened Outcomes
  import opened Bencode
  import opened Metainfo

  // ---------------------------------------------------------------------------
  // Piece hashes.

  /** The piece hashes one after the other. */
  function Flatten(chunks: seq<bytes>): bytes {
    if chunks == [] then [] else chunks[0] + Flatten(chunks[1..])
  }

  /** After the first 20 bytes, the remaining chunks are those of the rest. */
  lemma ChunksTail(p: bytes)
    requires |p| > HashLength
    ensures Chunks(p) == [p[..HashLength]] + Chunks(p[HashLength..])
  {
    var rest := p[HashLength..];
    assert |Chunks(p)| == 1 + |Chunks(rest)|;
    forall i | 1 <= i < |Chunks(p)|
      ensures Chunks(p)[i] == Chunks(rest)[i - 1]
    {
      var lo := HashLength * (i - 1);
      assert HashLength * i == lo + HashLength;
      var hi := if lo + HashLength <= |rest| then lo + HashLength else |rest|;
      assert Chunks(rest)[i - 1] == rest[lo..hi];
      assert hi + HashLength == (if HashLength * i + HashLength <= |p| then HashLength * i + HashLength else |p|);
      assert rest[lo..hi] == p[lo + HashLength..hi + HashLength] by {
        forall k | 0 <= k < hi - lo ensures rest[lo..hi][k] == p[lo + HashLength..hi + HashLength][k] { }
      }
    }
  }

  /**
   * `pieces` is cut into ceil(len/20) slices that put back together give
   * `pieces` again; all of them are 20 bytes long except the last, which has
   * between 1 and 20.
   */
  lemma {:induction false} PieceChunks(p: bytes)
    ensures Flatten(Chunks(p)) == p
    ensures |Chunks(p)| == (|p| + 19) / 20
    ensures forall i :: 0 <= i < |Chunks(p)| - 1 ==> |Chunks(p)[i]| == 20
    ensures Chunks(p) != [] ==> 0 < |Chunks(p)[|Chunks(p)| - 1]| <= 20
    decreases |p|
  {
    var c := Chunks(p);
    forall i | 0 <= i < |c| - 1 ensures |c[i]| == 20 {
      assert HashLength * i + HashLength <= HashLength * (|c| - 1);
    }
    if c != [] {
      var k := |c| - 1;
      assert HashLength * k < |p|;
    }
    if |p| == 0 {
    } else if |p| <= HashLength {
      assert |c| == 1 && c[0] == p[0..|p|];
      assert p[0..|p|] == p;
    } else {
      ChunksTail(p);
      PieceChunks(p[HashLength..]);
      assert c[1..] == Chunks(p[HashLength..]);
      assert p[..HashLength] + p[HashLength..] == p;
    }
  }

  // ---------------------------------------------------------------------------
  // Shapes of the info record.

  /**
   * `private` is Python's truth value of the `private` entry, false when it is
   * absent; for an integer entry, true exactly when it is not zero.
   */
  lemma PrivateFlag(v: Value, t: TorrentInfo)
    requires Info(v) == Ok(t)
    ensures v.Dict?
    ensures t.private <==> PrivateKey in v.entries && Truthy(v.entries[PrivateKey])
    ensures PrivateKey !in v.entries ==> !t.private
    ensures PrivateKey in v.entries && v.entries[PrivateKey].Int? ==>
              (t.private <==> v.entries[PrivateKey].n != 0)
  {
  }

  /**
   * With a `files` entry the torrent is multi-file (files set, no length, no
   * md5sum); without one it is single-file with the `length` entry.
   */
  lemma SingleOrMulti(v: Value, t: TorrentInfo)
    requires Info(v) == Ok(t)
    ensures v.Dict?
    ensures t.files.Some? <==> FilesKey in v.entries
    ensures t.files.Some? ==> t.length.None? && t.md5sum.None?
    ensures t.files.None? ==> t.length.Some? && v.entries[LengthKey] == Int(t.length.value)
    ensures v.entries[NameKey] == Bytes(t.name) && v.entries[PieceLengthKey] == Int(t.pieceLength)
    ensures v.entries[PiecesKey].Bytes? ==> t.pieces == Chunks(v.entries[PiecesKey].b)
  {
  }

  /** The file loop keeps every entry, in order, and fails exactly when one entry does. */
  lemma {:induction false} FilesInOrder(items: seq<Value>)
    ensures Files(items).Ok? <==> forall i :: 0 <= i < |items| ==> File(items[i]).Ok?
    ensures Files(items).Ok? ==>
              forall i :: 0 <= i < |items| ==> Files(items).value[i] == File(items[i]).value
    decreases |items|
  {
    if items != [] {
      var front := items[..|items| - 1];
      FilesInOrder(front);
      assert forall i :: 0 <= i < |front| ==> front[i] == items[i];
    }
  }

  /** Decoding a list of strings keeps each string, in order, and fails on any non-string. */
  lemma {:induction false} TextsInOrder(items: seq<Value>)
    ensures Texts(items).Ok? <==> forall i :: 0 <= i < |items| ==> items[i].Bytes?
    ensures Texts(items).Ok? ==> forall i :: 0 <= i < |items| ==> Texts(items).value[i] == items[i].b
    decreases |items|
  {
    if items != [] {
      TextsInOrder(items[1..]);
      assert forall i :: 1 <= i < |items| ==> items[1..][i - 1] == items[i];
    }
  }

  /** The tiers of `announce-list` in order, each tier's URLs in order. */
  lemma {:induction false} TierListInOrder(tiers: seq<Value>)
    requires forall i :: 0 <= i < |tiers| ==> tiers[i].List?
    requires forall i, j :: 0 <= i < |tiers| && 0 <= j < |tiers[i].items| ==> tiers[i].items[j].Bytes?
    ensures TierList(tiers).Ok?
    ensures forall i :: 0 <= i < |tiers| ==> |TierList(tiers).value[i]| == |tiers[i].items|
    ensures forall i, j :: 0 <= i < |tiers| && 0 <= j < |tiers[i].items| ==>
              TierList(tiers).value[i][j] == tiers[i].items[j].b
    decreases |tiers|
  {
    if tiers != [] {
      TextsInOrder(tiers[0].items);
      TierListInOrder(tiers[1..]);
      assert forall i :: 1 <= i < |tiers| ==> tiers[1..][i - 1] == tiers[i];
    }
  }

  /** `announce-list` given as a list of lists of URLs is read back tier by tier, URL by URL. */
  lemma AnnounceListOrder(tiers: seq<Value>)
    requires forall i :: 0 <= i < |tiers| ==> tiers[i].List?
    requires forall i, j :: 0 <= i < |tiers| && 0 <= j < |tiers[i].items| ==> tiers[i].items[j].Bytes?
    ensures Tiers(List(tiers)).Ok? && |Tiers(List(tiers)).value| == |tiers|
    ensures forall i, j :: 0 <= i < |tiers| && 0 <= j < |tiers[i].items| ==>
              j < |Tiers(List(tiers)).value[i]| && Tiers(List(tiers)).value[i][j] == tiers[i].items[j].b
  {
    TierListInOrder(tiers);
  }

  // ---------------------------------------------------------------------------
  // The whole file.

  /**
   * A decoded dictionary without `info` gives no metadata; given that the
   * announce fields read, that is exactly when the error is `MissingInfo`.
   */
  lemma MissingInfoRejected(data: bytes, sha1: bytes -> bytes, d: map<bytes, Value>)
    requires DecodeBytes(data) == Ok(Dict(d))
    ensures InfoKey !in d ==> Load(data, sha1).Err?
    ensures Load(data, sha1) == Err(MissingInfo) <==>
              && InfoKey !in d
              && TextOr(d, AnnounceKey, []).Ok?
              && (AnnounceListKey in d ==> Tiers(d[AnnounceListKey]).Ok?)
  {
    if AnnounceListKey in d && Tiers(d[AnnounceListKey]).Err? {
      assert Iterate(d[AnnounceListKey]).Err? ==> Iterate(d[AnnounceListKey]).error == Malformed;
    }
  }

  /**
   * What a loaded torrent holds: `announce` is the `announce` entry or empty,
   * `announce-list` is empty when absent, `encoding` defaults to "utf-8", the
   * info record is read from the `info` entry and the hash is taken of the
   * slice the source cuts out of the file.
   */
  lemma LoadedFields(data: bytes, sha1: bytes -> bytes, d: map<bytes, Value>)
    requires DecodeBytes(data) == Ok(Dict(d)) && Load(data, sha1).Ok?
    ensures var m := Load(data, sha1).value;
      && InfoKey in d && Info(d[InfoKey]) == Ok(m.info)
      && m.infoHash == sha1(InfoBytesAsWritten(data))
      && (AnnounceKey !in d ==> m.announce == [])
      && (AnnounceKey in d ==> d[AnnounceKey] == Bytes(m.announce))
      && (AnnounceListKey !in d ==> m.announceList == [])
      && (AnnounceListKey in d ==> Tiers(d[AnnounceListKey]) == Ok(m.announceList))
      && (EncodingKey !in d ==> m.encoding == Str("utf-8"))
      && (CommentKey in d <==> m.comment.Some?)
  {
  }

  // ---------------------------------------------------------------------------
  // The bytes the info hash is taken over.

  /** `found` records where the value `acc` holds under `info` was read. */
  predicate Tracks(s: bytes, acc: map<bytes, Value>, found: Option<Span>) {
    match found
    case None => InfoKey !in acc
    case Some(span) =>
      && InfoKey in acc && span.start <= span.end <= |s|
      && ParseValue(s, span.start) == Ok(Parsed(acc[InfoKey], span.end))
  }

  /** The scan follows the decoder entry by entry and ends where `info`'s final value was read. */
  lemma {:induction false} ScanTracks(s: bytes, pos: nat, acc: map<bytes, Value>, found: Option<Span>)
    requires pos <= |s| && Tracks(s, acc, found) && ParseDict(s, pos, acc).Ok?
    ensures Tracks(s, ParseDict(s, pos, acc).value.value.entries, ScanDict(s, pos, found))
    decreases |s| - pos
  {
    var Parsed(key, p) := ParseValue(s, pos).value;
    if key != End {
      var Parsed(v, q) := ParseValue(s, p).value;
      var found' := if key.b == InfoKey then Some(Span(p, q)) else found;
      assert Tracks(s, acc[key.b := v], found');
      ScanTracks(s, q, acc[key.b := v], found');
    }
  }

  /**
   * When the file decodes to a dictionary holding `info`, the hashed bytes are
   * a stretch of the file that the decoder reads as exactly that value.
   */
  lemma InfoSpanDecodes(data: bytes, d: map<bytes, Value>)
    requires DecodeBytes(data) == Ok(Dict(d)) && InfoKey in d
    ensures InfoSpan(data).Some?
    ensures var span := InfoSpan(data).value;
      && ParseValue(data, span.start) == Ok(Parsed(d[InfoKey], span.end))
      && InfoBytes(data) == data[span.start..span.end]
      && InfoBytes(data) != []
  {
    assert data != [] && data[0] == DictTag;
    ScanTracks(data, 1, map[], None);
  }

  /** The bytes of the torrent {"info": {"a": 1}}: "d4:infod1:ai1eee". */
  const Example: bytes := [100, 52, 58, 105, 110, 102, 111, 100, 49, 58, 97, 105, 49, 101, 101, 101]

  /** "d8:infod" does not occur in `Example`, and its first 'e' from index 7 on is at 13. */
  lemma ExampleSearch()
    ensures Find(Example, Str("d8:infod"), 0) == -1
    ensures Find(Example, [EndTag], 7) == 13
  {
    var data := Example;
    var pat := Str("d8:infod");
    assert pat == [100, 56, 58, 105, 110, 102, 111, 100];
    forall j | 0 <= j && j + |pat| <= |data| ensures !At(data, j, pat) {
      if j == 0 || j == 7 {
        assert data[j + 1] != pat[1];
      } else {
        assert data[j + 0] != pat[0];
      }
    }
    assert At(data, 13, [EndTag]);
    forall j | 7 <= j < 13 ensures !At(data, j, [EndTag]) {
      assert data[j + 0] != [EndTag][0];
    }
  }

  /** The info value of `Example`, {"a": 1}, is read from bytes 7 to 15. */
  lemma ExampleInfoValue()
    ensures ParseValue(Example, 7) == Ok(Parsed(Dict(map[[97] := Int(1)]), 15))
  {
    var data := Example;
    assert DigitRunEnd(data, 9) == 9 && DigitRunEnd(data, 8) == 9;
    assert ParseValue(data, 8) == Ok(Parsed(Bytes(data[10..11]), 11));
    assert data[10..11] == [97];
    assert DigitRunEnd(data, 13) == 13 && DigitRunEnd(data, 12) == 13;
    assert ParseValue(data, 11) == Ok(Parsed(Int(1), 14));
    assert ParseValue(data, 14) == Ok(Parsed(End, 15));
    assert ParseDict(data, 8, map[]) == Ok(Parsed(Dict(map[[97] := Int(1)]), 15));
  }

  /** `Example` decodes to {"info": {"a": 1}}. */
  lemma ExampleDecodes()
    ensures DecodeBytes(Example) == Ok(Dict(map[InfoKey := Dict(map[[97] := Int(1)])]))
  {
    var data := Example;
    assert Str("info") == [105, 110, 102, 111];
    assert data[3..7] == InfoKey;
    assert DigitRunEnd(data, 2) == 2 && DigitRunEnd(data, 1) == 2;
    assert ParseValue(data, 1) == Ok(Parsed(Bytes(data[3..7]), 7));
    ExampleInfoValue();
    assert ParseValue(data, 15) == Ok(Parsed(End, 16));
    assert ParseDict(data, 1, map[]) == Ok(Parsed(Dict(map[InfoKey := Dict(map[[97] := Int(1)])]), 16));
  }

  /**
   * In the well-formed torrent `Example`, "d8:infod" does not occur: the
   * source hashes the empty string, which is not the encoding of any value,
   * while the info dictionary sits at bytes 7 to 15 and the corrected
   * `InfoBytes` is a non-empty stretch that decodes to it.
   */
  lemma InfoHashAsWrittenMisses()
    ensures DecodeBytes(Example) == Ok(Dict(map[InfoKey := Dict(map[[97] := Int(1)])]))
    ensures InfoBytesAsWritten(Example) == []
    ensures ParseValue(InfoBytesAsWritten(Example), 0).Err?
    ensures InfoBytes(Example) != []
  {
    ExampleSearch();
    ExampleDecodes();
    InfoSpanDecodes(Example, map[InfoKey := Dict(map[[97] := Int(1)])]);
  }

  /**
   * The intended info hash of a file that decodes to a dictionary holding
   * `info` is SHA-1 of the stretch of the file that the decoder reads as
   * exactly that value.
   */
  lemma InfoHashOfInfoValue(data: bytes, sha1: bytes -> bytes, d: map<bytes, Value>)
    requires DecodeBytes(data) == Ok(Dict(d)) && InfoKey in d
    ensures InfoSpan(data).Some?
    ensures var span := InfoSpan(data).value;
      && ParseValue(data, span.start) == Ok(Parsed(d[InfoKey], span.end))
      && IntendedInfoHash(data, sha1) == sha1(data[span.start..span.end])
  {
    InfoSpanDecodes(data, d);
  }

  // ---------------------------------------------------------------------------
  // Total size and file list.

  lemma {:induction false} SumLengthsAppend(a: seq<FileInfo>, b: seq<FileInfo>)
    ensures SumLengths(a + b) == SumLengths(a) + SumLengths(b)
    decreases |b|
  {
    if b == [] {
      assert a + b == a;
    } else {
      assert (a + b)[..|a + b| - 1] == a + b[..|b| - 1];
      assert (a + b)[|a + b| - 1] == b[|b| - 1];
      SumLengthsAppend(a, b[..|b| - 1]);
    }
  }

  /** With no negative length, the sum is at least each file's length. */
  lemma {:induction false} SumLengthsCovers(files: seq<FileInfo>)
    requires forall i :: 0 <= i < |files| ==> files[i].length >= 0
    ensures SumLengths(files) >= 0
    ensures forall i :: 0 <= i < |files| ==> files[i].length <= SumLengths(files)
    decreases |files|
  {
    if files != [] {
      SumLengthsCovers(files[..|files| - 1]);
    }
  }

  /**
   * `get_total_size`: 0 without info; for a multi-file torrent with files,
   * the sum of their lengths, which is the sum over any split of the list
   * and covers each file; otherwise the single length.
   */
  lemma TotalSizeCases(info: Option<TorrentInfo>)
    ensures info.None? ==> TotalSize(info) == 0
    ensures info.Some? && info.value.files.Some? && info.value.files.value != [] ==>
              forall k :: 0 <= k <= |info.value.files.value| ==>
                TotalSize(info) == SumLengths(info.value.files.value[..k]) + SumLengths(info.value.files.value[k..])
    ensures info.Some? && info.value.files.None? ==> TotalSize(info) == info.value.length.GetOr(0)
  {
    if info.Some? && info.value.files.Some? && info.value.files.value != [] {
      var fs := info.value.files.value;
      forall k | 0 <= k <= |fs|
        ensures TotalSize(info) == SumLengths(fs[..k]) + SumLengths(fs[k..])
      {
        assert fs[..k] + fs[k..] == fs;
        SumLengthsAppend(fs[..k], fs[k..]);
      }
    }
  }

  /** For a multi-file torrent with files, the total size covers every file of the list. */
  lemma TotalSizeCoversFiles(t: TorrentInfo)
    requires t.files.Some? && t.files.value != []
    requires forall i :: 0 <= i < |t.files.value| ==> t.files.value[i].length >= 0
    ensures TotalSize(Some(t)) >= 0
    ensures forall i :: 0 <= i < |t.files.value| ==> t.files.value[i].length <= TotalSize(Some(t))
  {
    SumLengthsCovers(t.files.value);
  }

  /**
   * `get_file_list` on a multi-file torrent: the path of every entry of
   * `files`, in the order of the file.
   */
  lemma FileListInOrder(v: Value, t: TorrentInfo, items: seq<Value>)
    requires Info(v) == Ok(t) && FilesKey in v.entries
    requires Iterate(v.entries[FilesKey]) == Ok(items) && items != []
    ensures |FileList(Some(t))| == |items|
    ensures forall i :: 0 <= i < |items| ==>
              File(items[i]).Ok? && FileList(Some(t))[i] == File(items[i]).value.path
  {
    FilesInOrder(items);
  }

  /**
   * A multi-file torrent whose `files` list is empty has size 0 and lists
   * its name as its one file, like a single-file torrent.
   */
  lemma EmptyFilesList(t: TorrentInfo)
    requires t.files == Some([]) && t.length.None?
    ensures TotalSize(Some(t)) == 0 && FileList(Some(t)) == [t.name]
  {
  }

  // ---------------------------------------------------------------------------
  // File paths.

  /** Segments put together with a '/' between each two. */
  function Joined(segments: seq<bytes>): bytes
    requires segments != []
  {
    if |segments| == 1 then segments[0]
    else Joined(segments[..|segments| - 1]) + [Slash] + segments[|segments| - 1]
  }

  /** Non-empty segments without '/' are joined with one '/' between each two. */
  lemma {:induction false} JoinPlain(segments: seq<bytes>)
    requires segments != []
    requires forall i :: 0 <= i < |segments| ==> segments[i] != []
    requires forall i, k :: 0 <= i < |segments| && 0 <= k < |segments[i]| ==> segments[i][k] != Slash
    ensures JoinPath(segments) == Joined(segments)
    ensures JoinPath(segments) != [] && JoinPath(segments)[|JoinPath(segments)| - 1] != Slash
    decreases |segments|
  {
    if |segments| > 1 {
      var front := segments[..|segments| - 1];
      JoinPlain(front);
      var last := segments[|segments| - 1];
      assert last[0] != Slash;
      assert last[|last| - 1] != Slash;
    } else {
      assert segments[0][|segments[0]| - 1] != Slash;
    }
  }

  /** A segment that starts with '/' throws away every segment before it. */
  lemma {:induction false} JoinAbsoluteResets(segments: seq<bytes>, k: nat)
    requires k < |segments| && segments[k] != [] && segments[k][0] == Slash
    ensures JoinPath(segments) == JoinPath(segments[k..])
    decreases |segments|
  {
    var n := |segments|;
    if k < n - 1 {
      JoinAbsoluteResets(segments[..n - 1], k);
      assert segments[..n - 1][k..] == segments[k..][..n - 1 - k];
    } else {
      assert segments[k..] == [segments[k]];
    }
  }
}
