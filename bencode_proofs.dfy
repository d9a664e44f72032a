/**
 * What decoding and encoding promise about each other, and the decoder's
 * behaviour on the inputs that backend/app/bencode.py treats leniently or
 * rejects.
 */
module BencodeProofs {
  import opened Ascii
  import opened Outcomes
  import opened Bencode

  /** The numeral of `n` at `p`, followed by a byte that is not a digit (or by nothing). */
  lemma NumeralAt(s: bytes, p: nat, n: nat)
    requires At(s, p, Decimal(n))
    requires p + |Decimal(n)| == |s| || !IsDigit(s[p + |Decimal(n)|])
    ensures DigitRunEnd(s, p) == p + |Decimal(n)|
    ensures DigitsAt(s, p, DigitRunEnd(s, p)) == n
  {
    var digits := Decimal(n);
    forall i | p <= i < p + |digits| ensures IsDigit(s[i]) {
      assert s[p + (i - p)] == digits[i - p];
    }
    DigitRunEndAt(s, p, p + |digits|);
    DecimalValue(s, p, n);
  }

  /** A byte that `w` puts at offset `i` of its occurrence. */
  lemma ByteAt(s: bytes, p: nat, w: bytes, i: nat)
    requires At(s, p, w) && i < |w|
    ensures p + i < |s| && s[p + i] == w[i]
  {
  }

  /**
   * Round trip with a remainder: decoding the encoding of `v`, wherever it
   * sits in a longer input, gives back `v` and leaves the cursor just after
   * the encoding.
   */
  lemma {:induction false} RoundTrip(v: Value, s: bytes, p: nat)
    requires Encodable(v) && At(s, p, EncodeValue(v))
    ensures ParseValue(s, p) == Ok(Parsed(v, p + |EncodeValue(v)|))
    decreases v, 2
  {
    match v
    case Int(n) => IntRoundTrip(n, s, p);
    case Bytes(b) => StringRoundTrip(b, s, p);
    case List(items) => ListRoundTrip(v, s, p);
    case Dict(d) => DictRoundTrip(v, s, p);
  }

  lemma IntRoundTrip(n: int, s: bytes, p: nat)
    requires At(s, p, EncodeValue(Int(n)))
    ensures ParseValue(s, p) == Ok(Parsed(Int(n), p + |EncodeValue(Int(n))|))
  {
    var digits := SignedDecimal(n);
    assert EncodeValue(Int(n)) == [IntTag] + digits + [EndTag];
    Framed(s, p, IntTag, digits);
    IntBody(n, s, p + 1);
  }

  /** `decode_int` reads back the numeral of `n` and its 'e'. */
  lemma IntBody(n: int, s: bytes, q: nat)
    requires At(s, q, SignedDecimal(n) + [EndTag])
    ensures ParseInt(s, q) == Ok(Parsed(Int(n), q + |SignedDecimal(n)| + 1))
  {
    if n < 0 {
      NegativeBody(n, s, q);
    } else {
      UnsignedBody(n, s, q);
    }
  }

  lemma NegativeBody(n: int, s: bytes, q: nat)
    requires n < 0 && At(s, q, SignedDecimal(n) + [EndTag])
    ensures ParseInt(s, q) == Ok(Parsed(Int(n), q + |SignedDecimal(n)| + 1))
  {
    AtConcat(s, q, SignedDecimal(n), [EndTag]);
    AtConcat(s, q, [Minus], Decimal(-n));
    ByteAt(s, q, [Minus], 0);
    DigitsBody(-n, s, q + 1);
  }

  lemma UnsignedBody(n: int, s: bytes, q: nat)
    requires n >= 0 && At(s, q, SignedDecimal(n) + [EndTag])
    ensures ParseInt(s, q) == Ok(Parsed(Int(n), q + |SignedDecimal(n)| + 1))
  {
    AtConcat(s, q, SignedDecimal(n), [EndTag]);
    DigitsBody(n, s, q);
  }

  /** The digits of `n` and the 'e' after them. */
  lemma DigitsBody(n: nat, s: bytes, q: nat)
    requires At(s, q, Decimal(n)) && At(s, q + |Decimal(n)|, [EndTag])
    ensures DigitRunEnd(s, q) == q + |Decimal(n)|
    ensures DigitsAt(s, q, q + |Decimal(n)|) == n
    ensures s[q + |Decimal(n)|] == EndTag
    ensures IsDigit(s[q])
  {
    ByteAt(s, q, Decimal(n), 0);
    ByteAt(s, q + |Decimal(n)|, [EndTag], 0);
    NumeralAt(s, q, n);
  }

  lemma StringRoundTrip(b: bytes, s: bytes, p: nat)
    requires At(s, p, EncodeString(b))
    ensures ParseValue(s, p) == Ok(Parsed(Bytes(b), p + |EncodeString(b)|))
  {
    var n := Decimal(|b|);
    AtConcat(s, p, n + [Colon], b);
    AtConcat(s, p, n, [Colon]);
    ByteAt(s, p + |n|, [Colon], 0);
    NumeralAt(s, p, |b|);
    AtSlice(s, p + |n| + 1, b);
    assert IsDigit(s[p]) by { assert s[p] == n[0]; }
  }

  /** A tag byte, the bytes `body`, then 'e', at `p`. */
  lemma Framed(s: bytes, p: nat, tag: byte, body: bytes)
    requires At(s, p, [tag] + body + [EndTag])
    ensures p < |s| && s[p] == tag && At(s, p + 1, body + [EndTag])
  {
    assert [tag] + body + [EndTag] == [tag] + (body + [EndTag]);
    AtConcat(s, p, [tag], body + [EndTag]);
    ByteAt(s, p, [tag], 0);
  }

  lemma {:induction false} ListRoundTrip(v: Value, s: bytes, p: nat)
    requires v.List? && Encodable(v) && At(s, p, EncodeValue(v))
    ensures ParseValue(s, p) == Ok(Parsed(v, p + |EncodeValue(v)|))
    decreases v, 1
  {
    Framed(s, p, ListTag, EncodeItems(v.items));
    ListBody(v, s, p);
    ValueList(s, p);
  }

  lemma {:induction false} ListBody(v: Value, s: bytes, p: nat)
    requires v.List? && Encodable(v)
    requires At(s, p + 1, EncodeItems(v.items) + [EndTag])
    ensures ParseList(s, p + 1, []) == Ok(Parsed(v, p + |EncodeValue(v)|))
    decreases v, 0
  {
    var end := p + |EncodeValue(v)|;
    assert end == p + 1 + |EncodeItems(v.items)| + 1 by { ListLength(v); }
    assert ParseList(s, p + 1, []) == Ok(Parsed(List([] + v.items), end)) by {
      ItemsRoundTrip(v.items, s, p + 1, [], end);
    }
    assert [] + v.items == v.items;
  }

  lemma ListLength(v: Value)
    requires v.List? && Encodable(v)
    ensures |EncodeValue(v)| == |EncodeItems(v.items)| + 2
  {
  }

  /** `decode` hands an 'l' to `_decode_list`. */
  lemma ValueList(s: bytes, p: nat)
    requires p < |s| && s[p] == ListTag
    ensures ParseValue(s, p) == ParseList(s, p + 1, [])
  {
  }

  lemma {:induction false} DictRoundTrip(v: Value, s: bytes, p: nat)
    requires v.Dict? && Encodable(v) && At(s, p, EncodeValue(v))
    ensures ParseValue(s, p) == Ok(Parsed(v, p + |EncodeValue(v)|))
    decreases v, 1
  {
    Framed(s, p, DictTag, EncodeEntries(v.entries, SortedKeys(v.entries.Keys), 0, v));
    DictBody(v, s, p);
    ValueDict(s, p);
  }

  lemma {:induction false} DictBody(v: Value, s: bytes, p: nat)
    requires v.Dict? && Encodable(v)
    requires At(s, p + 1, EncodeEntries(v.entries, SortedKeys(v.entries.Keys), 0, v) + [EndTag])
    ensures ParseDict(s, p + 1, map[]) == Ok(Parsed(v, p + |EncodeValue(v)|))
    decreases v, 0
  {
    var keys := SortedKeys(v.entries.Keys);
    var end := p + |EncodeValue(v)|;
    assert end == p + 1 + |EncodeEntries(v.entries, keys, 0, v)| + 1 by { DictLength(v); }
    assert ParseDict(s, p + 1, map[]) == Ok(Parsed(Dict(Stored(map[], v.entries, keys, 0)), end)) by {
      EntriesRoundTrip(v.entries, keys, 0, v, s, p + 1, map[], end);
    }
    assert Stored(map[], v.entries, keys, 0) == v.entries by { AllEntries(v.entries); }
  }

  lemma DictLength(v: Value)
    requires v.Dict? && Encodable(v)
    ensures |EncodeValue(v)| == |EncodeEntries(v.entries, SortedKeys(v.entries.Keys), 0, v)| + 2
  {
  }

  /** `decode` hands a 'd' to `_decode_dict`. */
  lemma ValueDict(s: bytes, p: nat)
    requires p < |s| && s[p] == DictTag
    ensures ParseValue(s, p) == ParseDict(s, p + 1, map[])
  {
  }

  lemma AllEntries(d: map<bytes, Value>)
    ensures Stored(map[], d, SortedKeys(d.Keys), 0) == d
  {
    StoredEntries(map[], d, SortedKeys(d.Keys), 0);
  }

  /** Decoding the items of a list, then its 'e', appends exactly those items. */
  lemma {:induction false} ItemsRoundTrip(items: seq<Value>, s: bytes, p: nat, acc: seq<Value>, end: nat)
    requires forall i :: 0 <= i < |items| ==> Encodable(items[i])
    requires At(s, p, EncodeItems(items) + [EndTag])
    requires end == p + |EncodeItems(items)| + 1
    ensures ParseList(s, p, acc) == Ok(Parsed(List(acc + items), end))
    decreases items, 1
  {
    if items == [] {
      assert acc + items == acc;
      assert EncodeItems(items) + [EndTag] == [EndTag];
      ListEnd(s, p, acc);
    } else {
      ItemsFirst(items, s, p, acc, end);
    }
  }

  /** The first item is read, then the others as `ItemsRoundTrip` says. */
  lemma {:induction false} ItemsFirst(items: seq<Value>, s: bytes, p: nat, acc: seq<Value>, end: nat)
    requires items != [] && forall i :: 0 <= i < |items| ==> Encodable(items[i])
    requires At(s, p, EncodeItems(items) + [EndTag])
    requires end == p + |EncodeItems(items)| + 1
    ensures ParseList(s, p, acc) == Ok(Parsed(List(acc + items), end))
    decreases items, 0
  {
    var q := p + |EncodeValue(items[0])|;
    ItemAt(items, s, p);
    ItemStep(items[0], s, p, acc);
    ItemsRoundTrip(items[1..], s, q, acc + [items[0]], end);
    assert acc + [items[0]] + items[1..] == acc + items;
  }

  /** Where the first item and the rest sit. */
  lemma ItemAt(items: seq<Value>, s: bytes, p: nat)
    requires items != [] && forall i :: 0 <= i < |items| ==> Encodable(items[i])
    requires At(s, p, EncodeItems(items) + [EndTag])
    ensures At(s, p, EncodeValue(items[0]))
    ensures At(s, p + |EncodeValue(items[0])|, EncodeItems(items[1..]) + [EndTag])
    ensures |EncodeItems(items)| == |EncodeValue(items[0])| + |EncodeItems(items[1..])|
  {
    var head := EncodeValue(items[0]);
    var tail := EncodeItems(items[1..]);
    assert EncodeItems(items) + [EndTag] == head + (tail + [EndTag]);
    AtConcat(s, p, head, tail + [EndTag]);
  }

  /** `_decode_list` reads one item, appends it, and goes on. */
  lemma {:induction false} ItemStep(v: Value, s: bytes, p: nat, acc: seq<Value>)
    requires Encodable(v) && At(s, p, EncodeValue(v))
    ensures ParseList(s, p, acc) == ParseList(s, p + |EncodeValue(v)|, acc + [v])
    decreases v, 3
  {
    RoundTrip(v, s, p);
  }

  /** `_decode_list` stops at 'e' with the items read so far. */
  lemma ListEnd(s: bytes, p: nat, acc: seq<Value>)
    requires At(s, p, [EndTag])
    ensures ParseList(s, p, acc) == Ok(Parsed(List(acc), p + 1))
  {
    ByteAt(s, p, [EndTag], 0);
  }

  /** `_decode_dict` stops at 'e' with the entries read so far. */
  lemma DictEnd(s: bytes, p: nat, acc: map<bytes, Value>)
    requires At(s, p, [EndTag])
    ensures ParseDict(s, p, acc) == Ok(Parsed(Dict(acc), p + 1))
  {
    ByteAt(s, p, [EndTag], 0);
  }

  /** `acc` after storing `d[k]` under each key `k` of `keys[i..]`, in order. */
  ghost function Stored(acc: map<bytes, Value>, d: map<bytes, Value>, keys: seq<bytes>, i: nat): map<bytes, Value>
    requires i <= |keys| && forall k :: k in keys ==> k in d
    decreases |keys| - i
  {
    if i == |keys| then acc else Stored(acc[keys[i] := d[keys[i]]], d, keys, i + 1)
  }

  /** Storing the entries under `keys[i..]` adds exactly those entries of `d`. */
  lemma {:induction false} StoredEntries(acc: map<bytes, Value>, d: map<bytes, Value>, keys: seq<bytes>, i: nat)
    requires i <= |keys| && forall k :: k in keys ==> k in d
    ensures Stored(acc, d, keys, i) == acc + map k | k in d && k in keys[i..] :: d[k]
    decreases |keys| - i
  {
    if i == |keys| {
      assert (map k | k in d && k in keys[i..] :: d[k]) == map[];
    } else {
      StoredEntries(acc[keys[i] := d[keys[i]]], d, keys, i + 1);
      assert forall k :: k in keys[i..] <==> k == keys[i] || k in keys[i + 1..];
    }
  }

  /** One key and its value, read by `_decode_dict`, are stored and the loop goes on. */
  lemma DictStep(s: bytes, p: nat, acc: map<bytes, Value>, key: bytes, value: Value, p1: nat, p2: nat)
    requires p <= |s|
    requires ParseValue(s, p) == Ok(Parsed(Bytes(key), p1))
    requires p1 <= |s| && ParseValue(s, p1) == Ok(Parsed(value, p2))
    ensures p2 <= |s| && ParseDict(s, p, acc) == ParseDict(s, p2, acc[key := value])
  {
  }

  /**
   * Decoding the entries under `keys[i..]`, then the 'e', stores those entries
   * of `d`, in that order, into the dictionary read so far.
   */
  lemma {:induction false} EntriesRoundTrip(
    d: map<bytes, Value>, keys: seq<bytes>, i: nat, parent: Value, s: bytes, p: nat, acc: map<bytes, Value>, end: nat)
    requires parent == Dict(d) && Encodable(parent)
    requires i <= |keys| && forall k :: k in keys ==> k in d
    requires At(s, p, EncodeEntries(d, keys, i, parent) + [EndTag])
    requires end == p + |EncodeEntries(d, keys, i, parent)| + 1
    ensures ParseDict(s, p, acc) == Ok(Parsed(Dict(Stored(acc, d, keys, i)), end))
    decreases parent, 0, |keys| - i, 1
  {
    if i == |keys| {
      EntriesEnd(d, keys, i, parent, s, p, acc);
    } else {
      var q := EntryRead(d, keys, i, parent, s, p, acc);
      EntriesRoundTrip(d, keys, i + 1, parent, s, q, acc[keys[i] := d[keys[i]]], end);
      assert Stored(acc, d, keys, i) == Stored(acc[keys[i] := d[keys[i]]], d, keys, i + 1);
    }
  }

  /** With no keys left, `_decode_dict` meets the 'e' and stops. */
  lemma EntriesEnd(
    d: map<bytes, Value>, keys: seq<bytes>, i: nat, parent: Value, s: bytes, p: nat, acc: map<bytes, Value>)
    requires parent == Dict(d) && Encodable(parent)
    requires i == |keys| && forall k :: k in keys ==> k in d
    requires At(s, p, EncodeEntries(d, keys, i, parent) + [EndTag])
    ensures ParseDict(s, p, acc) ==
      Ok(Parsed(Dict(Stored(acc, d, keys, i)), p + |EncodeEntries(d, keys, i, parent)| + 1))
  {
    assert EncodeEntries(d, keys, i, parent) + [EndTag] == [EndTag];
    DictEnd(s, p, acc);
  }

  /** `_decode_dict` reads the entry under `keys[i]`, stores it, and goes on at `q`. */
  lemma {:induction false} EntryRead(
    d: map<bytes, Value>, keys: seq<bytes>, i: nat, parent: Value, s: bytes, p: nat, acc: map<bytes, Value>)
    returns (q: nat)
    requires parent == Dict(d) && Encodable(parent)
    requires i < |keys| && forall k :: k in keys ==> k in d
    requires At(s, p, EncodeEntries(d, keys, i, parent) + [EndTag])
    ensures At(s, q, EncodeEntries(d, keys, i + 1, parent) + [EndTag])
    ensures q + |EncodeEntries(d, keys, i + 1, parent)| == p + |EncodeEntries(d, keys, i, parent)|
    ensures ParseDict(s, p, acc) == ParseDict(s, q, acc[keys[i] := d[keys[i]]])
    decreases parent, 0, |keys| - i, 0
  {
    var k := keys[i];
    EntryAt(d, keys, i, parent, s, p);
    EntryStep(k, d[k], s, p, acc);
    q := p + |EncodeString(k)| + |EncodeValue(d[k])|;
  }

  /** `_decode_dict` reads one key and its value, stores them, and goes on. */
  lemma {:induction false} EntryStep(k: bytes, v: Value, s: bytes, p: nat, acc: map<bytes, Value>)
    requires Encodable(v)
    requires At(s, p, EncodeString(k))
    requires At(s, p + |EncodeString(k)|, EncodeValue(v))
    ensures ParseDict(s, p, acc)
         == ParseDict(s, p + |EncodeString(k)| + |EncodeValue(v)|, acc[k := v])
    decreases v, 3
  {
    RoundTrip(v, s, p + |EncodeString(k)|);
    KeyThenValue(k, v, s, p, acc, p + |EncodeString(k)| + |EncodeValue(v)|);
  }

  /** A key followed by a value that decodes up to `q`: the dictionary goes on at `q`. */
  lemma KeyThenValue(k: bytes, v: Value, s: bytes, p: nat, acc: map<bytes, Value>, q: nat)
    requires At(s, p, EncodeString(k)) && p + |EncodeString(k)| <= |s|
    requires ParseValue(s, p + |EncodeString(k)|) == Ok(Parsed(v, q))
    ensures ParseDict(s, p, acc) == ParseDict(s, q, acc[k := v])
  {
    StringRoundTrip(k, s, p);
    DictStep(s, p, acc, k, v, p + |EncodeString(k)|, q);
  }

  /** Where the entry under `keys[i]`, its value and the rest sit. */
  lemma EntryAt(d: map<bytes, Value>, keys: seq<bytes>, i: nat, parent: Value, s: bytes, p: nat)
    requires parent == Dict(d) && Encodable(parent)
    requires i < |keys| && forall k :: k in keys ==> k in d
    requires At(s, p, EncodeEntries(d, keys, i, parent) + [EndTag])
    ensures At(s, p, EncodeString(keys[i]))
    ensures At(s, p + |EncodeString(keys[i])|, EncodeValue(d[keys[i]]))
    ensures At(s, p + |EncodeString(keys[i])| + |EncodeValue(d[keys[i]])|,
               EncodeEntries(d, keys, i + 1, parent) + [EndTag])
    ensures |EncodeEntries(d, keys, i, parent)|
         == |EncodeString(keys[i])| + |EncodeValue(d[keys[i]])| + |EncodeEntries(d, keys, i + 1, parent)|
  {
    var key := EncodeString(keys[i]);
    var value := EncodeValue(d[keys[i]]);
    var tail := EncodeEntries(d, keys, i + 1, parent);
    assert EncodeEntries(d, keys, i, parent) == key + value + tail;
    ThreeAt(key, value, tail, s, p);
  }

  lemma ThreeAt(a: bytes, b: bytes, c: bytes, s: bytes, p: nat)
    requires At(s, p, a + b + c + [EndTag])
    ensures At(s, p, a)
    ensures At(s, p + |a|, b)
    ensures At(s, p + |a| + |b|, c + [EndTag])
  {
    assert a + b + c + [EndTag] == a + (b + (c + [EndTag]));
    AtConcat(s, p, a, b + (c + [EndTag]));
    AtConcat(s, p + |a|, b, c + [EndTag]);
  }

  /** `bdecode(bencode(v) + rest) == v`, and `bencode` succeeds on every value without `None`. */
  lemma EncodeThenDecode(v: Value, rest: bytes)
    requires Encodable(v)
    ensures Encode(v).Ok?
    ensures ParseValue(Encode(v).value + rest, 0) == Ok(Parsed(v, |Encode(v).value|))
    ensures DecodeBytes(Encode(v).value + rest) == Ok(v)
  {
    var e := EncodeValue(v);
    assert (e + rest)[0..|e|] == e;
    RoundTrip(v, e + rest, 0);
  }

  /**
   * `encode`'s framing: the first byte tells the kind of value (a digit for a
   * string), and every kind but a string is closed by 'e'.
   */
  lemma EncodeValueShape(v: Value)
    requires Encodable(v)
    ensures 2 <= |EncodeValue(v)|
    ensures v.Int? ==> EncodeValue(v)[0] == IntTag
    ensures v.List? ==> EncodeValue(v)[0] == ListTag
    ensures v.Dict? ==> EncodeValue(v)[0] == DictTag
    ensures v.Bytes? ==> IsDigit(EncodeValue(v)[0])
    ensures !v.Bytes? ==> EncodeValue(v)[|EncodeValue(v)| - 1] == EndTag
  {
    if v.Bytes? {
      var digits := Decimal(|v.b|);
      assert EncodeValue(v)[0] == digits[0];
      assert IsDigit(digits[0]);
    }
  }
}
