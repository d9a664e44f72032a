/**
 * The decoder of backend/app/bencode.py on inputs that are not the encoding
 * of anything: the integers and lengths it reads leniently, the short read of
 * a string, the errors it raises, and what it makes of 'e' and of repeated
 * dictionary keys.
 */
module BencodeCases {
  import opened Ascii
  import opened Outcomes
  import opened Bencode
  import opened BencodeProofs

  /** Every byte string occurs in itself at 0. */
  lemma AtWhole(s: bytes)
    ensures At(s, 0, s)
  {
  }

  /** `w` sits in `x + w + y` just after `x`. */
  lemma AtMiddle(x: bytes, w: bytes, y: bytes)
    ensures At(x + w + y, |x|, w)
  {
    AtWhole(x + w + y);
    AtConcat(x + w + y, 0, x + w, y);
    AtConcat(x + w + y, 0, x, w);
  }

  /** The run of `digits` at `p`, stopped by a byte that is not a digit (or by the end). */
  lemma DigitsThen(s: bytes, p: nat, digits: bytes)
    requires At(s, p, digits) && AllDigits(digits)
    requires p + |digits| == |s| || !IsDigit(s[p + |digits|])
    ensures DigitRunEnd(s, p) == p + |digits|
    ensures DigitsAt(s, p, p + |digits|) == DigitsValue(digits)
  {
    forall i | p <= i < p + |digits| ensures IsDigit(s[i]) {
      assert s[p + (i - p)] == digits[i - p];
    }
    DigitRunEndAt(s, p, p + |digits|);
    AtSlice(s, p, digits);
    DigitsAtSlice(s, p, p + |digits|);
  }

  /**
   * `decode_int` takes any run of digits, possibly empty and possibly with
   * leading zeros, after an optional '-', and needs an 'e' after it:
   * "ie" and "i-e" are 0, "i-0e" is 0, "i007e" is 7.
   */
  lemma IntLenient(s: bytes, p: nat, negative: bool, digits: bytes)
    requires AllDigits(digits)
    requires At(s, p, [IntTag] + (if negative then [Minus] else []) + digits + [EndTag])
    ensures var n: int := DigitsValue(digits);
      ParseValue(s, p) == Ok(Parsed(Int(if negative then -n else n),
                                    p + |digits| + (if negative then 3 else 2)))
  {
    var sign: bytes := if negative then [Minus] else [];
    AtConcat(s, p, [IntTag] + sign + digits, [EndTag]);
    AtConcat(s, p, [IntTag] + sign, digits);
    AtConcat(s, p, [IntTag], sign);
    ByteAt(s, p, [IntTag], 0);
    var q := p + 1 + |sign|;
    ByteAt(s, q + |digits|, [EndTag], 0);
    if negative {
      ByteAt(s, p + 1, sign, 0);
    } else if q < |s| {
      assert s[q] != Minus by {
        if digits == [] {
          ByteAt(s, q, [EndTag], 0);
        } else {
          ByteAt(s, q, digits, 0);
        }
      }
    }
    DigitsThen(s, q, digits);
  }

  /** An integer whose digits are followed by anything but 'e' (or by nothing) is an error. */
  lemma IntNeedsEnd(s: bytes, p: nat, negative: bool, digits: bytes)
    requires AllDigits(digits)
    requires At(s, p, [IntTag] + (if negative then [Minus] else []) + digits)
    requires var stop := p + |digits| + (if negative then 2 else 1);
      stop == |s| || (!IsDigit(s[stop]) && s[stop] != EndTag && (negative || digits != [] || s[stop] != Minus))
    ensures ParseValue(s, p) == Err(ExpectedIntEnd)
  {
    var sign: bytes := if negative then [Minus] else [];
    AtConcat(s, p, [IntTag] + sign, digits);
    AtConcat(s, p, [IntTag], sign);
    ByteAt(s, p, [IntTag], 0);
    var q := p + 1 + |sign|;
    if negative {
      ByteAt(s, p + 1, sign, 0);
    } else if q < |s| {
      assert s[q] != Minus by {
        if digits != [] {
          ByteAt(s, q, digits, 0);
        }
      }
    }
    DigitsThen(s, q, digits);
  }

  /**
   * `decode_string` reads the length, then at most that many bytes: exactly
   * that many when the input holds them, and otherwise whatever is left, with
   * no error.
   */
  lemma StringRead(s: bytes, p: nat, digits: bytes)
    requires digits != [] && AllDigits(digits)
    requires At(s, p, digits + [Colon])
    ensures var start := p + |digits| + 1;
      var n := DigitsValue(digits);
      var end := if start + n <= |s| then start + n else |s|;
      ParseValue(s, p) == Ok(Parsed(Bytes(s[start..end]), end))
    ensures ParseValue(s, p).Ok? && ParseValue(s, p).value.value.Bytes?
    ensures |ParseValue(s, p).value.value.b| <= DigitsValue(digits)
    ensures |ParseValue(s, p).value.value.b| == DigitsValue(digits)
        <==> p + |digits| + 1 + DigitsValue(digits) <= |s|
  {
    AtConcat(s, p, digits, [Colon]);
    ByteAt(s, p + |digits|, [Colon], 0);
    ByteAt(s, p, digits, 0);
    DigitsThen(s, p, digits);
  }

  /** A length whose digits are followed by anything but ':' (or by nothing) is an error. */
  lemma StringNeedsColon(s: bytes, p: nat, digits: bytes)
    requires digits != [] && AllDigits(digits) && At(s, p, digits)
    requires var stop := p + |digits|;
      stop == |s| || (!IsDigit(s[stop]) && s[stop] != Colon)
    ensures ParseValue(s, p) == Err(ExpectedColon)
  {
    ByteAt(s, p, digits, 0);
    DigitsThen(s, p, digits);
  }

  /**
   * `decode` returns `None` exactly for a leading 'e', one byte long; the
   * integer, string, list and dictionary readers never return it.
   */
  lemma EndOnlyFromE(s: bytes, p: nat)
    requires p <= |s|
    ensures (ParseValue(s, p).Ok? && ParseValue(s, p).value.value == End)
        <==> p < |s| && s[p] == EndTag
    ensures p < |s| && s[p] == EndTag ==> ParseValue(s, p) == Ok(Parsed(End, p + 1))
  {
  }

  /** End of input, or a byte that opens nothing, is an unexpected token. */
  lemma UnexpectedLeadingByte(s: bytes, p: nat)
    requires p <= |s|
    requires p < |s| ==> !IsDigit(s[p]) && s[p] != IntTag && s[p] != ListTag
                         && s[p] != DictTag && s[p] != EndTag
    ensures ParseValue(s, p) == Err(UnexpectedToken(if p == |s| then None else Some(s[p])))
  {
  }

  /**
   * A key that is read as anything but a byte string or `None` is an error,
   * wherever it sits in the dictionary and whatever was read before it.
   */
  lemma NonStringKeyAt(s: bytes, p: nat, acc: map<bytes, Value>, key: Value, q: nat)
    requires p <= |s| && ParseValue(s, p) == Ok(Parsed(key, q))
    requires key != End && !key.Bytes?
    ensures ParseDict(s, p, acc) == Err(NonStringKey)
  {
  }

  /** Every value among the entries can be encoded. */
  predicate AllEncodable(pairs: seq<(bytes, Value)>)
    decreases |pairs|
  {
    pairs == [] || (Encodable(pairs[0].1) && AllEncodable(pairs[1..]))
  }

  /** Dictionary entries written in the given order, keys not necessarily sorted. */
  function EncodePairs(pairs: seq<(bytes, Value)>): bytes
    requires AllEncodable(pairs)
    decreases |pairs|
  {
    if pairs == [] then []
    else EncodeString(pairs[0].0) + EncodeValue(pairs[0].1) + EncodePairs(pairs[1..])
  }

  /** Splitting a match of three consecutive pieces. */
  lemma AtThree(s: bytes, p: nat, a: bytes, b: bytes, c: bytes)
    requires At(s, p, a + (b + c))
    ensures At(s, p, a) && At(s, p + |a|, b) && At(s, p + |a| + |b|, c)
  {
    AtConcat(s, p, a, b + c);
    AtConcat(s, p + |a|, b, c);
  }

  /** Where the first entry's key and value, and the entries after it, sit. */
  lemma EntriesSplit(pairs: seq<(bytes, Value)>, s: bytes, p: nat, q: nat)
    requires pairs != [] && AllEncodable(pairs) && At(s, p, EncodePairs(pairs))
    requires q == p + |EncodeString(pairs[0].0)| + |EncodeValue(pairs[0].1)|
    ensures At(s, p, EncodeString(pairs[0].0))
    ensures At(s, p + |EncodeString(pairs[0].0)|, EncodeValue(pairs[0].1))
    ensures At(s, q, EncodePairs(pairs[1..])) && q + |EncodePairs(pairs[1..])| == p + |EncodePairs(pairs)|
  {
    EncodePairsFirst(pairs);
    AtThree(s, p, EncodeString(pairs[0].0), EncodeValue(pairs[0].1), EncodePairs(pairs[1..]));
  }

  /** The encoding of the first entry, followed by that of the others. */
  lemma EncodePairsFirst(pairs: seq<(bytes, Value)>)
    requires pairs != [] && AllEncodable(pairs)
    ensures EncodePairs(pairs)
         == EncodeString(pairs[0].0) + (EncodeValue(pairs[0].1) + EncodePairs(pairs[1..]))
  {
  }

  /**
   * After any number of well-formed entries, ending at `e`, a key that is not
   * a byte string is rejected.
   */
  lemma {:induction false} NonStringKeyAfter(pairs: seq<(bytes, Value)>, key: Value, s: bytes, p: nat, e: nat,
                                             acc: map<bytes, Value>)
    requires AllEncodable(pairs) && Encodable(key) && !key.Bytes?
    requires At(s, p, EncodePairs(pairs)) && e == p + |EncodePairs(pairs)|
    requires At(s, e, EncodeValue(key))
    ensures ParseDict(s, p, acc) == Err(NonStringKey)
    decreases |pairs|
  {
    if pairs == [] {
      RoundTrip(key, s, e);
      NonStringKeyAt(s, e, acc, key, e + |EncodeValue(key)|);
    } else {
      var k := pairs[0].0;
      var v := pairs[0].1;
      var q := p + |EncodeString(k)| + |EncodeValue(v)|;
      EntriesSplit(pairs, s, p, q);
      EntryStepAt(k, v, s, p, p + |EncodeString(k)|, q, acc);
      NonStringKeyAfter(pairs[1..], key, s, q, e, acc[k := v]);
    }
  }

  /**
   * A dictionary in which an integer, a list or a dictionary stands where a
   * key should, after any well-formed entries, is an error.
   */
  lemma NonStringKeyRejected(pairs: seq<(bytes, Value)>, key: Value, rest: bytes)
    requires AllEncodable(pairs) && Encodable(key) && !key.Bytes?
    ensures DecodeBytes([DictTag] + EncodePairs(pairs) + EncodeValue(key) + rest) == Err(NonStringKey)
  {
    var entries := EncodePairs(pairs);
    var s := [DictTag] + entries + EncodeValue(key) + rest;
    DictBodyAt(entries, EncodeValue(key), rest);
    assert s[0] == DictTag;
    ValueDict(s, 0);
    NonStringKeyAfter(pairs, key, s, 1, 1 + |entries|, map[]);
  }

  /** Where the entries and the next item of a dictionary written out sit. */
  lemma DictBodyAt(entries: bytes, w: bytes, rest: bytes)
    ensures At([DictTag] + entries + w + rest, 1, entries)
    ensures At([DictTag] + entries + w + rest, 1 + |entries|, w)
  {
    var s := [DictTag] + entries + w + rest;
    AtMiddle([DictTag], entries + w, rest);
    assert [DictTag] + (entries + w) + rest == s;
    AtConcat(s, 1, entries, w);
  }

  /** `EntryStep` with the positions of the value and of what follows named. */
  lemma EntryStepAt(k: bytes, v: Value, s: bytes, p: nat, q: nat, r: nat, acc: map<bytes, Value>)
    requires Encodable(v)
    requires At(s, p, EncodeString(k)) && q == p + |EncodeString(k)|
    requires At(s, q, EncodeValue(v)) && r == q + |EncodeValue(v)|
    ensures ParseDict(s, p, acc) == ParseDict(s, r, acc[k := v])
  {
    EntryStep(k, v, s, p, acc);
  }

  /** `StringRoundTrip` with the position after the string named. */
  lemma StringAt(k: bytes, s: bytes, p: nat, q: nat)
    requires At(s, p, EncodeString(k)) && q == p + |EncodeString(k)|
    ensures ParseValue(s, p) == Ok(Parsed(Bytes(k), q))
  {
    StringRoundTrip(k, s, p);
  }

  /** An 'e' at `p` is read as `None`, and reading goes on at `q`. */
  lemma EndAt(s: bytes, p: nat, q: nat)
    requires At(s, p, [EndTag]) && q == p + 1
    ensures ParseValue(s, p) == Ok(Parsed(End, q))
  {
    ByteAt(s, p, [EndTag], 0);
  }

  /** Where the pieces of a dictionary holding two entries sit. */
  lemma TwoEntriesLayout(key: bytes, x1: bytes, x2: bytes, rest: bytes)
    ensures var s := [DictTag] + key + x1 + key + x2 + [EndTag] + rest;
      var p2 := 1 + |key|;
      var p3 := p2 + |x1|;
      var p4 := p3 + |key|;
      var p5 := p4 + |x2|;
      && s[0] == DictTag && At(s, 1, key) && At(s, p2, x1) && At(s, p3, key) && At(s, p4, x2)
      && At(s, p5, [EndTag])
  {
    var s := [DictTag] + key + x1 + key + x2 + [EndTag] + rest;
    var p2 := 1 + |key|;
    var p3 := p2 + |x1|;
    var p4 := p3 + |key|;
    var p5 := p4 + |x2|;
    assert At(s, 1, key) by {
      forall i | 0 <= i < |key| ensures s[1 + i] == key[i] { }
    }
    assert At(s, p2, x1) by {
      forall i | 0 <= i < |x1| ensures s[p2 + i] == x1[i] { }
    }
    assert At(s, p3, key) by {
      forall i | 0 <= i < |key| ensures s[p3 + i] == key[i] { }
    }
    assert At(s, p4, x2) by {
      forall i | 0 <= i < |x2| ensures s[p4 + i] == x2[i] { }
    }
    assert s[p5] == EndTag;
  }

  /** Of two entries under the same key, the later one is kept. */
  lemma DuplicateKeyOverwrites(k: bytes, v1: Value, v2: Value, rest: bytes)
    requires Encodable(v1) && Encodable(v2)
    ensures DecodeBytes([DictTag] + EncodeString(k) + EncodeValue(v1)
                        + EncodeString(k) + EncodeValue(v2) + [EndTag] + rest)
         == Ok(Dict(map[k := v2]))
  {
    var key := EncodeString(k);
    var x1 := EncodeValue(v1);
    var x2 := EncodeValue(v2);
    var s := [DictTag] + key + x1 + key + x2 + [EndTag] + rest;
    var p2 := 1 + |key|;
    var p3 := p2 + |x1|;
    var p4 := p3 + |key|;
    var p5 := p4 + |x2|;
    var m1: map<bytes, Value> := map[][k := v1];
    var m2 := m1[k := v2];
    assert ParseValue(s, 0) == ParseDict(s, 1, map[]) by {
      TwoEntriesLayout(key, x1, x2, rest);
      ValueDict(s, 0);
    }
    assert ParseDict(s, 1, map[]) == ParseDict(s, p3, m1) by {
      TwoEntriesLayout(key, x1, x2, rest);
      EntryStepAt(k, v1, s, 1, p2, p3, map[]);
    }
    assert ParseDict(s, p3, m1) == ParseDict(s, p5, m2) by {
      TwoEntriesLayout(key, x1, x2, rest);
      EntryStepAt(k, v2, s, p3, p4, p5, m1);
    }
    assert ParseDict(s, p5, m2) == Ok(Parsed(Dict(m2), p5 + 1)) by {
      TwoEntriesLayout(key, x1, x2, rest);
      DictEnd(s, p5, m2);
    }
    assert m2 == map[k := v2];
  }

  /** Where the pieces of a dictionary holding one key and no value sit. */
  lemma KeyOnlyLayout(key: bytes, rest: bytes)
    ensures var s := [DictTag] + key + [EndTag] + [EndTag] + rest;
      && s[0] == DictTag && At(s, 1, key)
      && At(s, 1 + |key|, [EndTag]) && At(s, 2 + |key|, [EndTag])
  {
    var s := [DictTag] + key + [EndTag] + [EndTag] + rest;
    assert At(s, 1, key) by {
      forall i | 0 <= i < |key| ensures s[1 + i] == key[i] { }
    }
    assert s[1 + |key|] == EndTag && s[2 + |key|] == EndTag;
  }

  /** A key followed by 'e' stores `None` under the key and reading goes on after the 'e'. */
  lemma KeyThenEnd(k: bytes, s: bytes, p: nat, q: nat, acc: map<bytes, Value>)
    requires At(s, p, EncodeString(k)) && q == p + |EncodeString(k)| && At(s, q, [EndTag])
    ensures ParseDict(s, p, acc) == ParseDict(s, q + 1, acc[k := End])
  {
    StringAt(k, s, p, q);
    EndAt(s, q, q + 1);
    DictStep(s, p, acc, k, End, q, q + 1);
  }

  /** A key followed directly by 'e' is stored with the value `None`: "d1:aee" is {b"a": None}. */
  lemma EndAsValue(k: bytes, rest: bytes)
    ensures DecodeBytes([DictTag] + EncodeString(k) + [EndTag] + [EndTag] + rest)
         == Ok(Dict(map[k := End]))
  {
    var key := EncodeString(k);
    var s := [DictTag] + key + [EndTag] + [EndTag] + rest;
    var m: map<bytes, Value> := map[][k := End];
    KeyOnlyLayout(key, rest);
    ValueDict(s, 0);
    KeyThenEnd(k, s, 1, 1 + |key|, map[]);
    DictEnd(s, 2 + |key|, m);
  }

  /** A lone 'e' decodes to `None`, whatever follows it. */
  lemma LoneEnd(rest: bytes)
    ensures DecodeBytes([EndTag] + rest) == Ok(End)
  {
  }
}
