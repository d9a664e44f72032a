/**
 * Bencoding (the "bencoding" section of BEP 3) as backend/app/bencode.py
 * implements it.
 *
 * The decoder reads from a stream whose cursor is shared by every nested call.
 * Here the stream is the whole input `s` together with the cursor position:
 * every decoder takes the position of its first byte and returns the value
 * together with the position after its last byte. The decoders are methods
 * with the source's loops; each one is proved equal to a `Parse...` function
 * that states the same reading as a recursive definition, and the lemmas in
 * bencode_proofs.dfy are about those functions.
 */
module Bencode {
  import opened Ascii
  import opened Outcomes

  /** 'i', which opens an integer */
  const IntTag: byte := 105
  /** 'l', which opens a list */
  const ListTag: byte := 108
  /** 'd', which opens a dictionary */
  const DictTag: byte := 100
  /** 'e', which closes an integer, a list or a dictionary */
  const EndTag: byte := 101

  /**
   * What the decoder returns. `End` is Python's `None`: the decoder returns it
   * for a lone 'e', which is how lists and dictionaries see their end marker,
   * and it can be stored as a dictionary value ("d1:aee" decodes to
   * {b"a": None}).
   */
  datatype Value =
    | Int(n: int)
    | Bytes(b: bytes)
    | List(items: seq<Value>)
    | Dict(entries: map<bytes, Value>)
    | End

  datatype DecodeError =
    | ExpectedIntEnd          // "Expected 'e' at end of integer"
    | ExpectedColon           // "Expected ':' after string length"
    | EmptyLength             // int(b"") raises ValueError
    | UnexpectedToken(token: Option<byte>)  // None: the input ended
    | NonStringKey            // "Dictionary keys must be strings"

  datatype EncodeError = UnsupportedType   // encode(None) raises ValueError

  /** A decoded value and the cursor position just after it. */
  datatype Parsed = Parsed(value: Value, next: nat)

  type ParseResult = Result<Parsed, DecodeError>

  // ---------------------------------------------------------------------------
  // The reading, as functions.

  /** The end of the run of ASCII digits that starts at `pos` (DigitRun). */
  function DigitRunEnd(s: bytes, pos: nat): (r: nat)
    requires pos <= |s|
    ensures pos <= r <= |s|
    decreases |s| - pos
  {
    if pos < |s| && IsDigit(s[pos]) then DigitRunEnd(s, pos + 1) else pos
  }

  /** Every byte of the run is a digit and the byte that stops it is not. */
  lemma {:induction false} DigitRun(s: bytes, pos: nat)
    requires pos <= |s|
    ensures forall i :: pos <= i < DigitRunEnd(s, pos) ==> IsDigit(s[i])
    ensures DigitRunEnd(s, pos) == |s| || !IsDigit(s[DigitRunEnd(s, pos)])
    decreases |s| - pos
  {
    if pos < |s| && IsDigit(s[pos]) {
      DigitRun(s, pos + 1);
    }
  }

  /** A digit run that stops at `q` ends at `q`. */
  lemma {:induction false} DigitRunEndAt(s: bytes, pos: nat, q: nat)
    requires pos <= q <= |s|
    requires forall i :: pos <= i < q ==> IsDigit(s[i])
    requires q == |s| || !IsDigit(s[q])
    ensures DigitRunEnd(s, pos) == q
    decreases q - pos
  {
    if pos < q {
      DigitRunEndAt(s, pos + 1, q);
    }
  }

  /** `decode_int`, with `pos` just after the 'i'. */
  function ParseInt(s: bytes, pos: nat): (r: ParseResult)
    requires pos <= |s|
    ensures r.Ok? ==> pos < r.value.next <= |s| && r.value.value.Int?
  {
    var negative := pos < |s| && s[pos] == Minus;
    var start := if negative then pos + 1 else pos;
    var stop := DigitRunEnd(s, start);
    var n: int := DigitsAt(s, start, stop);
    if stop < |s| && s[stop] == EndTag then
      Ok(Parsed(Int(if negative then -n else n), stop + 1))
    else
      Err(ExpectedIntEnd)
  }

  /**
   * `decode_string`, with `pos` at the first digit of the length. When fewer
   * than `length` bytes remain, `stream.read(length)` returns what is left.
   */
  function ParseString(s: bytes, pos: nat): (r: ParseResult)
    requires pos <= |s|
    ensures r.Ok? ==> pos < r.value.next <= |s| && r.value.value.Bytes?
  {
    var stop := DigitRunEnd(s, pos);
    if !(stop < |s| && s[stop] == Colon) then Err(ExpectedColon)
    else if stop == pos then Err(EmptyLength)
    else
      var length := DigitsAt(s, pos, stop);
      var end := if stop + 1 + length <= |s| then stop + 1 + length else |s|;
      Ok(Parsed(Bytes(s[stop + 1..end]), end))
  }

  /** `decode`: one value starting at `pos`. */
  function ParseValue(s: bytes, pos: nat): (r: ParseResult)
    requires pos <= |s|
    ensures r.Ok? ==> pos < r.value.next <= |s|
    decreases |s| - pos, 0
  {
    if pos == |s| then Err(UnexpectedToken(None))
    else if s[pos] == IntTag then ParseInt(s, pos + 1)
    else if IsDigit(s[pos]) then ParseString(s, pos)
    else if s[pos] == ListTag then ParseList(s, pos + 1, [])
    else if s[pos] == DictTag then ParseDict(s, pos + 1, map[])
    else if s[pos] == EndTag then Ok(Parsed(End, pos + 1))
    else Err(UnexpectedToken(Some(s[pos])))
  }

  /** `_decode_list` from `pos`, having already read the items `acc`. */
  function ParseList(s: bytes, pos: nat, acc: seq<Value>): (r: ParseResult)
    requires pos <= |s|
    ensures r.Ok? ==> pos < r.value.next <= |s| && r.value.value.List?
    decreases |s| - pos, 1
  {
    match ParseValue(s, pos)
    case Err(e) => Err(e)
    case Ok(Parsed(v, p)) =>
      if v == End then Ok(Parsed(List(acc), p)) else ParseList(s, p, acc + [v])
  }

  /** `_decode_dict` from `pos`, having already read the entries `acc`. */
  function ParseDict(s: bytes, pos: nat, acc: map<bytes, Value>): (r: ParseResult)
    requires pos <= |s|
    ensures r.Ok? ==> pos < r.value.next <= |s| && r.value.value.Dict?
    decreases |s| - pos, 1
  {
    match ParseValue(s, pos)
    case Err(e) => Err(e)
    case Ok(Parsed(key, p)) =>
      if key == End then Ok(Parsed(Dict(acc), p))
      else if !key.Bytes? then Err(NonStringKey)
      else
        match ParseValue(s, p)
        case Err(e) => Err(e)
        case Ok(Parsed(v, q)) => ParseDict(s, q, acc[key.b := v])
  }

  /** `bdecode`: the first value of `data`; whatever follows it is ignored. */
  function DecodeBytes(data: bytes): Result<Value, DecodeError> {
    match ParseValue(data, 0)
    case Ok(p) => Ok(p.value)
    case Err(e) => Err(e)
  }

  // ---------------------------------------------------------------------------
  // The decoders, as the source writes them.

  method DecodeInt(s: bytes, pos: nat) returns (r: ParseResult)
    requires pos <= |s|
    ensures r == ParseInt(s, pos)
  {
    var result := 0;
    var sign := 1;
    var cur := pos;
    if cur < |s| && s[cur] == Minus {
      sign := -1;
      cur := cur + 1;
    }
    var start := cur;
    while cur < |s| && IsDigit(s[cur])
      invariant start <= cur <= |s|
      invariant forall i :: start <= i < cur ==> IsDigit(s[i])
      invariant result == DigitsAt(s, start, cur)
    {
      result := result * 10 + (s[cur] - Zero);
      cur := cur + 1;
    }
    DigitRunEndAt(s, start, cur);
    if cur < |s| && s[cur] == EndTag {
      r := Ok(Parsed(Int(sign * result), cur + 1));
    } else {
      r := Err(ExpectedIntEnd);
    }
  }

  method DecodeString(s: bytes, pos: nat) returns (r: ParseResult)
    requires pos <= |s|
    ensures r == ParseString(s, pos)
  {
    var lengthStr: bytes := [];
    var cur := pos;
    while cur < |s| && IsDigit(s[cur])
      invariant pos <= cur <= |s|
      invariant forall i :: pos <= i < cur ==> IsDigit(s[i])
      invariant lengthStr == s[pos..cur]
    {
      lengthStr := lengthStr + [s[cur]];
      cur := cur + 1;
    }
    DigitRunEndAt(s, pos, cur);
    if !(cur < |s| && s[cur] == Colon) {
      return Err(ExpectedColon);
    }
    if lengthStr == [] {
      return Err(EmptyLength);
    }
    DigitsAtSlice(s, pos, cur);
    var length := DigitsValue(lengthStr);
    var end := if cur + 1 + length <= |s| then cur + 1 + length else |s|;
    r := Ok(Parsed(Bytes(s[cur + 1..end]), end));
  }

  method Decode(s: bytes, pos: nat) returns (r: ParseResult)
    requires pos <= |s|
    ensures r == ParseValue(s, pos)
    decreases |s| - pos, 0
  {
    if pos == |s| {
      return Err(UnexpectedToken(None));
    }
    var c := s[pos];
    if c == IntTag {
      r := DecodeInt(s, pos + 1);
    } else if IsDigit(c) {
      r := DecodeString(s, pos);
    } else if c == ListTag {
      r := DecodeList(s, pos + 1);
    } else if c == DictTag {
      r := DecodeDict(s, pos + 1);
    } else if c == EndTag {
      r := Ok(Parsed(End, pos + 1));
    } else {
      r := Err(UnexpectedToken(Some(c)));
    }
  }

  method DecodeList(s: bytes, pos: nat) returns (r: ParseResult)
    requires pos <= |s|
    ensures r == ParseList(s, pos, [])
    decreases |s| - pos, 1
  {
    var result: seq<Value> := [];
    var cur := pos;
    while true
      invariant pos <= cur <= |s|
      invariant ParseList(s, cur, result) == ParseList(s, pos, [])
      decreases |s| - cur
    {
      var item := Decode(s, cur);
      if item.Err? {
        return Err(item.error);
      }
      if item.value.value == End {
        return Ok(Parsed(List(result), item.value.next));
      }
      result := result + [item.value.value];
      cur := item.value.next;
    }
  }

  method DecodeDict(s: bytes, pos: nat) returns (r: ParseResult)
    requires pos <= |s|
    ensures r == ParseDict(s, pos, map[])
    decreases |s| - pos, 1
  {
    var result: map<bytes, Value> := map[];
    var cur := pos;
    while true
      invariant pos <= cur <= |s|
      invariant ParseDict(s, cur, result) == ParseDict(s, pos, map[])
      decreases |s| - cur
    {
      var key := Decode(s, cur);
      if key.Err? {
        return Err(key.error);
      }
      if key.value.value == End {
        return Ok(Parsed(Dict(result), key.value.next));
      }
      if !key.value.value.Bytes? {
        return Err(NonStringKey);
      }
      var value := Decode(s, key.value.next);
      if value.Err? {
        return Err(value.error);
      }
      result := result[key.value.value.b := value.value.value];
      cur := value.value.next;
    }
  }

  /** `bdecode`. */
  method BDecode(data: bytes) returns (r: Result<Value, DecodeError>)
    ensures r == DecodeBytes(data)
  {
    var p := Decode(data, 0);
    if p.Ok? {
      r := Ok(p.value.value);
    } else {
      r := Err(p.error);
    }
  }

  // ---------------------------------------------------------------------------
  // Encoding.

  /** The values `encode` accepts: no `None` anywhere inside. */
  predicate Encodable(v: Value)
    decreases v
  {
    match v
    case End => false
    case List(items) => forall i :: 0 <= i < |items| ==> Encodable(items[i])
    case Dict(d) => forall k :: k in d ==> Encodable(d[k])
    case _ => true
  }

  /** A byte string: its decimal length, ':', then the bytes unchanged. */
  function EncodeString(b: bytes): bytes {
    Decimal(|b|) + [Colon] + b
  }

  function EncodeValue(v: Value): bytes
    requires Encodable(v)
    decreases v
  {
    match v
    case Int(n) => [IntTag] + SignedDecimal(n) + [EndTag]
    case Bytes(b) => EncodeString(b)
    case List(items) => [ListTag] + EncodeItems(items) + [EndTag]
    case Dict(d) => [DictTag] + EncodeEntries(d, SortedKeys(d.Keys), 0, v) + [EndTag]
  }

  function EncodeItems(items: seq<Value>): bytes
    requires forall i :: 0 <= i < |items| ==> Encodable(items[i])
    decreases items
  {
    if items == [] then [] else EncodeValue(items[0]) + EncodeItems(items[1..])
  }

  /** The entries of `d` under `keys[i..]`, in that order; `parent` is `Dict(d)`. */
  function EncodeEntries(d: map<bytes, Value>, keys: seq<bytes>, i: nat, ghost parent: Value): bytes
    requires parent == Dict(d) && Encodable(parent)
    requires i <= |keys| && forall k :: k in keys ==> k in d
    decreases parent, |keys| - i
  {
    if i == |keys| then []
    else EncodeString(keys[i]) + EncodeValue(d[keys[i]]) + EncodeEntries(d, keys, i + 1, parent)
  }

  /** `encode`/`bencode`: fails exactly when a `None` is inside `v`. */
  function Encode(v: Value): (r: Result<bytes, EncodeError>)
    ensures r.Ok? <==> Encodable(v)
  {
    if Encodable(v) then Ok(EncodeValue(v)) else Err(UnsupportedType)
  }
}
