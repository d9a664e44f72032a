/**
 * The metainfo (.torrent) reader: from the decoded top-level dictionary to the
 * announce fields, the info record (name, piece length, the 20-byte piece
 * hashes, the private flag, single-file or multi-file shape), the total size
 * and the file list.
 *
 * Names, URLs and paths stay byte strings (the source decodes them as UTF-8).
 * Every Python exception raised on a value of the wrong shape (a missing key,
 * `.decode` on a non-string, iterating an integer) is `Malformed`. SHA-1 is a
 * parameter `sha1` about which nothing is assumed.
 */
module Metainfo {
  import opened Ascii
  import opened Outcomes
  import opened Bencode

  /** One file of a multi-file torrent. */
  datatype FileInfo = FileInfo(path: bytes, length: int, md5sum: Option<bytes>)

  /** The `info` dictionary. Exactly one of `files` and `length` is set. */
  datatype TorrentInfo = TorrentInfo(
    name: bytes,
    pieceLength: int,
    pieces: seq<bytes>,
    private: bool,
    files: Option<seq<FileInfo>>,
    length: Option<int>,
    md5sum: Option<bytes>)

  /** Everything `_load_torrent_file` sets on a torrent that loads. */
  datatype Metadata = Metadata(
    infoHash: bytes,
    announce: bytes,
    announceList: seq<seq<bytes>>,
    creationDate: Option<Value>,
    comment: Option<bytes>,
    createdBy: Option<bytes>,
    encoding: bytes,
    info: TorrentInfo)

  datatype LoadError =
    | InvalidTorrent   // bdecode raised: "Invalid .torrent file"
    | MissingInfo      // "Invalid .torrent file: missing 'info' dictionary"
    | Malformed        // a KeyError, TypeError or AttributeError on a value of the wrong shape

  /** The length of one piece hash. */
  const HashLength: nat := 20

  const AnnounceKey: bytes := Str("announce")
  const AnnounceListKey: bytes := Str("announce-list")
  const InfoKey: bytes := Str("info")
  const CreationDateKey: bytes := Str("creation date")
  const CommentKey: bytes := Str("comment")
  const CreatedByKey: bytes := Str("created by")
  const EncodingKey: bytes := Str("encoding")
  const NameKey: bytes := Str("name")
  const PieceLengthKey: bytes := Str("piece length")
  const PiecesKey: bytes := Str("pieces")
  const PrivateKey: bytes := Str("private")
  const FilesKey: bytes := Str("files")
  const PathKey: bytes := Str("path")
  const LengthKey: bytes := Str("length")
  const Md5Key: bytes := Str("md5sum")

  // ---------------------------------------------------------------------------
  // What Python does with a decoded value of unknown shape.

  /** `v.decode('utf-8')`: only a byte string has `.decode`. */
  function Text(v: Value): Result<bytes, LoadError> {
    if v.Bytes? then Ok(v.b) else Err(Malformed)
  }

  /** `d[key].decode('utf-8')`. */
  function TextAt(d: map<bytes, Value>, key: bytes): Result<bytes, LoadError> {
    if key in d then Text(d[key]) else Err(Malformed)
  }

  /** `d.get(key, default).decode('utf-8')`. */
  function TextOr(d: map<bytes, Value>, key: bytes, default: bytes): Result<bytes, LoadError> {
    if key in d then Text(d[key]) else Ok(default)
  }

  /** `d.get(key, b'').decode('utf-8') if key in d else None`. */
  function OptionalText(d: map<bytes, Value>, key: bytes): Result<Option<bytes>, LoadError> {
    if key in d then
      var t :- Text(d[key]);
      Ok(Some(t))
    else Ok(None)
  }

  /** `d[key]` where the value is used as an integer. */
  function IntAt(d: map<bytes, Value>, key: bytes): Result<int, LoadError> {
    if key in d && d[key].Int? then Ok(d[key].n) else Err(Malformed)
  }

  /** `d.get(key)`: `None` when the key is absent or holds `None`. */
  function Lookup(d: map<bytes, Value>, key: bytes): Option<Value> {
    if key in d && d[key] != End then Some(d[key]) else None
  }

  /**
   * `for x in v`: a list gives its items, a byte string its byte values and an
   * empty dictionary nothing; an integer or `None` is not iterable.
   */
  function Iterate(v: Value): Result<seq<Value>, LoadError> {
    match v
    case List(items) => Ok(items)
    case Bytes(b) => Ok(ByteValues(b))
    case Dict(m) => if m == map[] then Ok([]) else Err(Malformed)
    case _ => Err(Malformed)
  }

  /** The integers that iterating over a byte string gives. */
  function ByteValues(b: bytes): (r: seq<Value>)
    ensures |r| == |b| && forall i :: 0 <= i < |b| ==> r[i] == Int(b[i])
  {
    if b == [] then [] else [Int(b[0])] + ByteValues(b[1..])
  }

  /** Python's truth value of a decoded value. */
  predicate Truthy(v: Value) {
    match v
    case Int(n) => n != 0
    case Bytes(b) => b != []
    case List(items) => items != []
    case Dict(m) => m != map[]
    case End => false
  }

  /** `[x.decode('utf-8') for x in items]`. */
  function Texts(items: seq<Value>): (r: Result<seq<bytes>, LoadError>)
    ensures r.Ok? ==> |r.value| == |items|
    ensures r.Err? ==> r.error == Malformed
  {
    if items == [] then Ok([])
    else
      var first :- Text(items[0]);
      var rest :- Texts(items[1..]);
      Ok([first] + rest)
  }

  /** The announce-list comprehension: `[[url.decode() for url in tier] for tier in v]`. */
  function Tiers(v: Value): Result<seq<seq<bytes>>, LoadError> {
    var tiers :- Iterate(v);
    TierList(tiers)
  }

  function TierList(tiers: seq<Value>): (r: Result<seq<seq<bytes>>, LoadError>)
    ensures r.Ok? ==> |r.value| == |tiers|
    ensures r.Err? ==> r.error == Malformed
  {
    if tiers == [] then Ok([])
    else
      var urls :- Iterate(tiers[0]);
      var first :- Texts(urls);
      var rest :- TierList(tiers[1..]);
      Ok([first] + rest)
  }

  // ---------------------------------------------------------------------------
  // The info dictionary.

  /** `[p[i:i+20] for i in range(0, len(p), 20)]`. */
  function Chunks(p: bytes): seq<bytes> {
    seq((|p| + HashLength - 1) / HashLength,
        i requires 0 <= i < (|p| + HashLength - 1) / HashLength =>
          p[HashLength * i .. if HashLength * i + HashLength <= |p| then HashLength * i + HashLength else |p|])
  }

  /**
   * The piece hashes from `info[b'pieces']`: `len` then slicing. A dictionary
   * or a list of no length gives no pieces; an integer or `None` has no `len`.
   */
  function Pieces(v: Value): Result<seq<bytes>, LoadError> {
    match v
    case Bytes(b) => Ok(Chunks(b))
    case List(items) => if items == [] then Ok([]) else Err(Malformed)
    case Dict(m) => if m == map[] then Ok([]) else Err(Malformed)
    case _ => Err(Malformed)
  }

  /**
   * POSIX `os.path.join(*segments)` for at least one segment: a segment that
   * starts with '/' replaces what came before, and '/' goes between two
   * segments unless the path so far is empty or already ends in '/'.
   */
  function JoinPath(segments: seq<bytes>): bytes
    requires segments != []
  {
    if |segments| == 1 then segments[0]
    else JoinStep(JoinPath(segments[..|segments| - 1]), segments[|segments| - 1])
  }

  function JoinStep(path: bytes, b: bytes): bytes {
    if b != [] && b[0] == Slash then b
    else if path == [] || path[|path| - 1] == Slash then path + b
    else path + [Slash] + b
  }

  /** One entry of `info[b'files']`, as the loop body reads it. */
  function File(v: Value): Result<FileInfo, LoadError> {
    if !v.Dict? then Err(Malformed)
    else
      var d := v.entries;
      var segments :- if PathKey in d then Iterate(d[PathKey]) else Err(Malformed);
      var texts :- Texts(segments);
      // `os.path.join()` with no argument raises TypeError
      if texts == [] then Err(Malformed)
      else
        var length :- IntAt(d, LengthKey);
        var md5sum :- OptionalText(d, Md5Key);
        Ok(FileInfo(JoinPath(texts), length, md5sum))
  }

  /** The files the loop has collected after reading `items`, in order. */
  function Files(items: seq<Value>): (r: Result<seq<FileInfo>, LoadError>)
    ensures r.Ok? ==> |r.value| == |items|
    ensures r.Err? ==> r.error == Malformed
  {
    if items == [] then Ok([])
    else
      var before :- Files(items[..|items| - 1]);
      var last :- File(items[|items| - 1]);
      Ok(before + [last])
  }

  /** `_parse_info`: the record built from the `info` value. */
  function Info(v: Value): (r: Result<TorrentInfo, LoadError>)
    ensures r.Err? ==> r.error == Malformed
  {
    if !v.Dict? then Err(Malformed)
    else
      var d := v.entries;
      var name :- TextAt(d, NameKey);
      var pieceLength :- IntAt(d, PieceLengthKey);
      var pieces :- if PiecesKey in d then Pieces(d[PiecesKey]) else Err(Malformed);
      var private := PrivateKey in d && Truthy(d[PrivateKey]);
      if FilesKey in d then
        var items :- Iterate(d[FilesKey]);
        var files :- Files(items);
        Ok(TorrentInfo(name, pieceLength, pieces, private, Some(files), None, None))
      else
        var length :- IntAt(d, LengthKey);
        var md5sum :- OptionalText(d, Md5Key);
        Ok(TorrentInfo(name, pieceLength, pieces, private, None, Some(length), md5sum))
  }

  // ---------------------------------------------------------------------------
  // The bytes fed to SHA-1.

  /** A stretch `s[start..end]` of the raw file. */
  datatype Span = Span(start: nat, end: nat)

  /**
   * The dictionary walk of `ParseDict`, remembering where the value of the
   * last `info` key sits; `found` is what the entries before `pos` gave.
   */
  function ScanDict(s: bytes, pos: nat, found: Option<Span>): (r: Option<Span>)
    requires pos <= |s|
    requires found.Some? ==> found.value.start <= found.value.end <= |s|
    ensures r.Some? ==> r.value.start <= r.value.end <= |s|
    decreases |s| - pos
  {
    match ParseValue(s, pos)
    case Err(_) => None
    case Ok(Parsed(key, p)) =>
      if key == End then found
      else if !key.Bytes? then None
      else
        match ParseValue(s, p)
        case Err(_) => None
        case Ok(Parsed(_, q)) => ScanDict(s, q, if key.b == InfoKey then Some(Span(p, q)) else found)
  }

  /** Where the value of the top-level `info` key sits in the file. */
  function InfoSpan(data: bytes): (r: Option<Span>)
    ensures r.Some? ==> r.value.start <= r.value.end <= |data|
  {
    if data != [] && data[0] == DictTag then ScanDict(data, 1, None) else None
  }

  /**
   * The info value exactly as it is written in the file: the bencoded form
   * that the info hash is defined over.
   */
  function InfoBytes(data: bytes): (r: bytes)
    ensures |r| <= |data|
    ensures data == [] || data[0] != DictTag ==> r == []
  {
    match InfoSpan(data)
    case Some(span) => data[span.start..span.end]
    case None => []
  }

  /**
   * The slice the source hashes: from the first "d8:infod" to the first 'e'
   * at least eight bytes after it, both found with `bytes.find` (-1 when
   * absent) and cut with Python's slicing.
   */
  function InfoBytesAsWritten(data: bytes): (r: bytes)
    ensures var i := Find(data, Str("d8:infod"), 0);
            var j := Find(data, [EndTag], i + 8);
      && (0 <= i && 0 <= j ==> i + 8 <= j < |data| && r == data[i..j + 1] && r[|r| - 1] == EndTag)
      && (0 <= i && j == -1 ==> r == [])
      && (i == -1 ==> r == if 0 <= j == |data| - 1 then data[|data| - 1..] else [])
  {
    var start := Find(data, Str("d8:infod"), 0);
    var stop := Find(data, [EndTag], start + 8);
    assert 0 <= stop ==> data[stop + 0] == [EndTag][0];
    Slice(data, start, stop + 1)
  }

  /**
   * The info hash as the metainfo format defines it: SHA-1 of the info
   * value exactly as it is written in the file.
   */
  function IntendedInfoHash(data: bytes, sha1: bytes -> bytes): bytes {
    sha1(InfoBytes(data))
  }

  // ---------------------------------------------------------------------------
  // The whole file.

  /** `_load_torrent_file` on the file's bytes, as one function. */
  function Load(data: bytes, sha1: bytes -> bytes): (r: Result<Metadata, LoadError>)
    ensures DecodeBytes(data).Err? ==> r == Err(InvalidTorrent)
    ensures DecodeBytes(data).Ok? && !DecodeBytes(data).value.Dict? ==> r == Err(Malformed)
    ensures r.Ok? ==> r.value.infoHash == sha1(InfoBytesAsWritten(data))
  {
    match DecodeBytes(data)
    case Err(_) => Err(InvalidTorrent)
    case Ok(decoded) =>
      if !decoded.Dict? then Err(Malformed)   // `decoded.get` on a non-dictionary
      else LoadFields(data, decoded.entries, sha1)
  }

  function LoadFields(data: bytes, d: map<bytes, Value>, sha1: bytes -> bytes): (r: Result<Metadata, LoadError>)
    ensures InfoKey !in d ==> r.Err?
    ensures r.Ok? ==> InfoKey in d && Info(d[InfoKey]) == Ok(r.value.info)
    ensures r.Ok? ==> r.value.infoHash == sha1(InfoBytesAsWritten(data))
  {
    var announce :- TextOr(d, AnnounceKey, []);
    var announceList :- if AnnounceListKey in d then Tiers(d[AnnounceListKey]) else Ok([]);
    if InfoKey !in d then Err(MissingInfo) else LoadRest(data, d, sha1, announce, announceList)
  }

  /** The fields read once `info` is known to be there. */
  function LoadRest(data: bytes, d: map<bytes, Value>, sha1: bytes -> bytes,
                    announce: bytes, announceList: seq<seq<bytes>>): (r: Result<Metadata, LoadError>)
    requires InfoKey in d
    ensures r.Err? ==> r.error == Malformed
    ensures r.Ok? ==> && r.value.infoHash == sha1(InfoBytesAsWritten(data))
                      && r.value.announce == announce && r.value.announceList == announceList
                      && Info(d[InfoKey]) == Ok(r.value.info)
                      && (EncodingKey !in d ==> r.value.encoding == Str("utf-8"))
                      && (CommentKey in d <==> r.value.comment.Some?)
  {
    var comment :- OptionalText(d, CommentKey);
    var createdBy :- OptionalText(d, CreatedByKey);
    var encoding :- TextOr(d, EncodingKey, Str("utf-8"));
    var info :- Info(d[InfoKey]);
    Ok(Metadata(sha1(InfoBytesAsWritten(data)), announce, announceList, Lookup(d, CreationDateKey),
                comment, createdBy, encoding, info))
  }

  /** `get_total_size`. */
  function TotalSize(info: Option<TorrentInfo>): (r: int)
    ensures info.None? ==> r == 0
    ensures info.Some? && (info.value.files.None? || info.value.files.value == []) ==>
              r == info.value.length.GetOr(0)
    ensures info.Some? && info.value.files.Some? && info.value.files.value != [] ==>
              r == SumLengths(info.value.files.value)
  {
    match info
    case None => 0
    case Some(t) =>
      if t.files.Some? && t.files.value != [] then SumLengths(t.files.value) else t.length.GetOr(0)
  }

  function SumLengths(files: seq<FileInfo>): int {
    if files == [] then 0 else SumLengths(files[..|files| - 1]) + files[|files| - 1].length
  }

  /** `[f.path for f in files]`. */
  function Paths(files: seq<FileInfo>): (r: seq<bytes>)
    ensures |r| == |files| && forall i :: 0 <= i < |files| ==> r[i] == files[i].path
  {
    if files == [] then [] else [files[0].path] + Paths(files[1..])
  }

  /** `get_file_list`. */
  function FileList(info: Option<TorrentInfo>): (r: seq<bytes>)
    ensures info.None? ==> r == []
    ensures info.Some? && (info.value.files.None? || info.value.files.value == []) ==> r == [info.value.name]
    ensures info.Some? && info.value.files.Some? && info.value.files.value != [] ==>
              && |r| == |info.value.files.value|
              && forall i :: 0 <= i < |r| ==> r[i] == info.value.files.value[i].path
  {
    match info
    case None => []
    case Some(t) =>
      if t.files.Some? && t.files.value != [] then
        Paths(t.files.value)
      else [t.name]
  }

  // ---------------------------------------------------------------------------
  // The object.

  class Torrent {
    var infoHash: bytes
    var announce: bytes
    var announceList: seq<seq<bytes>>
    var creationDate: Option<Value>
    var comment: Option<bytes>
    var createdBy: Option<bytes>
    var encoding: Option<bytes>
    var info: Option<TorrentInfo>

    /** The fields as `__init__` sets them before the file is read. */
    constructor Blank()
      ensures infoHash == [] && announce == [] && announceList == []
      ensures creationDate == None && comment == None && createdBy == None
      ensures encoding == None && info == None
    {
      infoHash, announce, announceList := [], [], [];
      creationDate, comment, createdBy := None, None, None;
      encoding, info := None, None;
    }

    /** The fields hold the metadata `m`. */
    predicate Holds(m: Metadata)
      reads this
    {
      && infoHash == m.infoHash && announce == m.announce && announceList == m.announceList
      && creationDate == m.creationDate && comment == m.comment && createdBy == m.createdBy
      && encoding == Some(m.encoding) && info == Some(m.info)
    }

    function GetTotalSize(): (r: int)
      reads this
      ensures info.None? ==> r == 0
      ensures info.Some? && info.value.files.Some? && info.value.files.value != [] ==>
                r == SumLengths(info.value.files.value)
      ensures info.Some? && (info.value.files.None? || info.value.files.value == []) ==>
                r == info.value.length.GetOr(0)
    {
      TotalSize(info)
    }

    function GetFileList(): (r: seq<bytes>)
      reads this
      ensures info.None? ==> r == []
      ensures info.Some? && (info.value.files.None? || info.value.files.value == []) ==> r == [info.value.name]
      ensures info.Some? && info.value.files.Some? && info.value.files.value != [] ==>
                && |r| == |info.value.files.value|
                && forall i :: 0 <= i < |r| ==> r[i] == info.value.files.value[i].path
    {
      FileList(info)
    }

    /**
     * `_load_torrent_file`, field by field. It runs on a blank torrent; an
     * error leaves the fields half set, which nobody sees since the
     * constructor raises.
     */
    method LoadTorrentFile(data: bytes, sha1: bytes -> bytes) returns (err: Option<LoadError>)
      requires announceList == []
      modifies this
      ensures Load(data, sha1).Err? ==> err == Some(Load(data, sha1).error)
      ensures Load(data, sha1).Ok? ==> err == None && Holds(Load(data, sha1).value)
    {
      var decoded := BDecode(data);
      if decoded.Err? {
        return Some(InvalidTorrent);
      }
      if !decoded.value.Dict? {
        return Some(Malformed);
      }
      var d := decoded.value.entries;
      assert Load(data, sha1) == LoadFields(data, d, sha1);
      var a := TextOr(d, AnnounceKey, []);
      if a.Err? {
        return Some(a.error);
      }
      announce := a.value;
      if AnnounceListKey in d {
        var tiers := Tiers(d[AnnounceListKey]);
        if tiers.Err? {
          return Some(tiers.error);
        }
        announceList := tiers.value;
      }
      if InfoKey !in d {
        return Some(MissingInfo);
      }
      assert Load(data, sha1) == LoadRest(data, d, sha1, announce, announceList);
      err := LoadRestOfFile(data, d, sha1);
    }

    /**
     * The second half of `_load_torrent_file`, once `info` is known to be
     * there: the hash, the optional fields, then `_parse_info`.
     */
    method LoadRestOfFile(data: bytes, d: map<bytes, Value>, sha1: bytes -> bytes) returns (err: Option<LoadError>)
      requires InfoKey in d
      modifies this
      ensures announce == old(announce) && announceList == old(announceList)
      ensures var want := LoadRest(data, d, sha1, announce, announceList);
        && (want.Err? ==> err == Some(want.error))
        && (want.Ok? ==> err == None && Holds(want.value))
    {
      var infoValue := d[InfoKey];
      infoHash := sha1(InfoBytesAsWritten(data));
      creationDate := Lookup(d, CreationDateKey);
      var c := OptionalText(d, CommentKey);
      if c.Err? {
        return Some(c.error);
      }
      comment := c.value;
      var cb := OptionalText(d, CreatedByKey);
      if cb.Err? {
        return Some(cb.error);
      }
      createdBy := cb.value;
      var e := TextOr(d, EncodingKey, Str("utf-8"));
      if e.Err? {
        return Some(e.error);
      }
      encoding := Some(e.value);
      err := ParseInfo(infoValue);
    }

    /** `_parse_info`: builds the file list entry by entry, then sets `info`. */
    method ParseInfo(v: Value) returns (err: Option<LoadError>)
      modifies this`info
      ensures Info(v).Ok? ==> err == None && info == Some(Info(v).value)
      ensures Info(v).Err? ==> err == Some(Info(v).error) && info == old(info)
    {
      if !v.Dict? {
        return Some(Malformed);
      }
      var d := v.entries;
      var name := TextAt(d, NameKey);
      var pieceLength := IntAt(d, PieceLengthKey);
      if name.Err? || pieceLength.Err? || PiecesKey !in d {
        return Some(Malformed);
      }
      var pieces := Pieces(d[PiecesKey]);
      if pieces.Err? {
        return Some(pieces.error);
      }
      var private := PrivateKey in d && Truthy(d[PrivateKey]);
      if FilesKey in d {
        var items := Iterate(d[FilesKey]);
        if items.Err? {
          return Some(items.error);
        }
        var files: seq<FileInfo> := [];
        var i := 0;
        while i < |items.value|
          invariant 0 <= i <= |items.value|
          invariant Files(items.value[..i]) == Ok(files)
        {
          var f := File(items.value[i]);
          if f.Err? {
            assert items.value[..i + 1][..i] == items.value[..i];
            FilesFailFrom(items.value, i + 1, f.error);
            return Some(f.error);
          }
          assert items.value[..i + 1][..i] == items.value[..i];
          files := files + [f.value];
          i := i + 1;
        }
        assert items.value[..i] == items.value;
        info := Some(TorrentInfo(name.value, pieceLength.value, pieces.value, private, Some(files), None, None));
      } else {
        var length := IntAt(d, LengthKey);
        var md5sum := OptionalText(d, Md5Key);
        if length.Err? || md5sum.Err? {
          return Some(Malformed);
        }
        info := Some(TorrentInfo(name.value, pieceLength.value, pieces.value, private, None, Some(length.value), md5sum.value));
      }
      err := None;
    }
  }

  /** Once an entry fails, every longer prefix of the files list fails. */
  lemma {:induction false} FilesFailFrom(items: seq<Value>, n: nat, e: LoadError)
    requires 0 < n <= |items| && Files(items[..n]) == Err(e)
    ensures Files(items) == Err(e)
    decreases |items| - n
  {
    if n < |items| {
      assert items[..n + 1][..n] == items[..n];
      FilesFailFrom(items, n + 1, e);
    } else {
      assert items[..n] == items;
    }
  }

  /** `Torrent(path)`: a torrent object only when the whole file loads. */
  method OpenTorrent(data: bytes, sha1: bytes -> bytes) returns (r: Result<Torrent, LoadError>)
    ensures r.Ok? <==> Load(data, sha1).Ok?
    ensures r.Err? ==> r.error == Load(data, sha1).error
    ensures r.Ok? ==> fresh(r.value) && r.value.Holds(Load(data, sha1).value)
  {
    var t := new Torrent.Blank();
    var err := t.LoadTorrentFile(data, sha1);
    if err.Some? {
      return Err(err.value);
    }
    return Ok(t);
  }
}
