/**
 * Byte strings and the few operations on them that the client relies on:
 * ASCII decimal numerals, Python's ordering of `bytes`, `bytes.find` and
 * Python slicing with possibly negative bounds.
 */
module Ascii {

  type byte = b: int | 0 <= b < 256
  type bytes = seq<byte>

  /** The byte of '0'; the digits '0'..'9' are `Zero .. Zero + 9`. */
  const Zero: byte := 48
  /** '-' */
  const Minus: byte := 45
  /** ':' */
  const Colon: byte := 58
  /** '.' */
  const Dot: byte := 46
  /** '/' (the path separator used to join file path segments) */
  const Slash: byte := 47

  /** The bytes of an ASCII text literal. */
  function Str(s: string): (r: bytes)
    ensures |r| == |s|
  {
    seq(|s|, i requires 0 <= i < |s| => (s[i] as int) % 256)
  }

  /** Python's `bytes.isdigit()` on a single byte: ASCII '0'..'9' only. */
  predicate IsDigit(b: byte) {
    Zero <= b <= Zero + 9
  }

  predicate AllDigits(s: bytes) {
    forall i :: 0 <= i < |s| ==> IsDigit(s[i])
  }

  /** The value of one ASCII digit. */
  function DigitValue(b: byte): (r: nat)
    ensures r < 10
  {
    if IsDigit(b) then b - Zero else 0
  }

  /**
   * The number the loop `result = result * 10 + int(char)` reads from the
   * digits `s[lo..hi]`. Only ever applied to runs of digits.
   */
  function DigitsAt(s: bytes, lo: nat, hi: nat): nat
    requires lo <= hi <= |s|
    decreases hi - lo
  {
    if hi == lo then 0 else DigitsAt(s, lo, hi - 1) * 10 + DigitValue(s[hi - 1])
  }

  /** Python's `int(ds)` on a non-empty run of ASCII digits. */
  function DigitsValue(ds: bytes): nat {
    DigitsAt(ds, 0, |ds|)
  }

  /** The digits of a slice read the same in place. */
  lemma {:induction false} DigitsAtSlice(s: bytes, lo: nat, hi: nat)
    requires lo <= hi <= |s|
    ensures DigitsValue(s[lo..hi]) == DigitsAt(s, lo, hi)
    decreases hi - lo
  {
    if hi > lo {
      DigitsAtSlice(s, lo, hi - 1);
      DigitsAtShift(s[lo..hi], s, lo, hi - lo);
    }
  }

  /** `DigitsAt` only looks at the bytes in its range. */
  lemma {:induction false} DigitsAtShift(t: bytes, s: bytes, lo: nat, n: nat)
    requires n <= |t| && lo + n <= |s|
    requires forall i :: 0 <= i < n ==> t[i] == s[lo + i]
    ensures DigitsAt(t, 0, n) == DigitsAt(s, lo, lo + n)
    decreases n
  {
    if n > 0 {
      DigitsAtShift(t, s, lo, n - 1);
    }
  }

  /** Python's `str(n)` for a natural number: no sign, no leading zeros. */
  function Decimal(n: nat): (r: bytes)
    ensures 1 <= |r| && AllDigits(r)
    ensures r[0] == Zero ==> n == 0
    decreases n
  {
    if n < 10 then [Zero + n] else Decimal(n / 10) + [Zero + n % 10]
  }

  /** Python's `str(n)` for any integer: a '-' before the digits of a negative number. */
  function SignedDecimal(n: int): bytes {
    if n < 0 then [Minus] + Decimal(-n) else Decimal(n)
  }

  /** Reading back the numeral `str(n)`, wherever it sits, gives `n`. */
  lemma {:induction false} DecimalValue(s: bytes, p: nat, n: nat)
    requires At(s, p, Decimal(n))
    ensures DigitsAt(s, p, p + |Decimal(n)|) == n
    decreases n
  {
    if n >= 10 {
      AtConcat(s, p, Decimal(n / 10), [Zero + n % 10]);
      DecimalValue(s, p, n / 10);
      assert s[p + |Decimal(n / 10)| + 0] == [Zero + n % 10][0];
    } else {
      assert s[p] == Decimal(n)[0];
    }
  }

  /** Distinct numbers have distinct numerals. */
  lemma DecimalInjective(m: nat, n: nat)
    requires Decimal(m) == Decimal(n)
    ensures m == n
  {
    DecimalValue(Decimal(m), 0, m);
    DecimalValue(Decimal(n), 0, n);
  }

  // ---------------------------------------------------------------------------
  // The order Python uses to sort `bytes`: lexicographic by byte value, a proper
  // prefix first.

  /** `a <= b` on Python `bytes`. */
  predicate Below(a: bytes, b: bytes) {
    |a| == 0 || (|b| != 0 && (a[0] < b[0] || (a[0] == b[0] && Below(a[1..], b[1..]))))
  }

  lemma {:induction false} BelowAntisymmetric(a: bytes, b: bytes)
    requires Below(a, b) && Below(b, a)
    ensures a == b
  {
    if |a| != 0 && |b| != 0 {
      BelowAntisymmetric(a[1..], b[1..]);
      assert a == [a[0]] + a[1..];
      assert b == [b[0]] + b[1..];
    }
  }

  lemma {:induction false} BelowTotal(a: bytes, b: bytes)
    ensures Below(a, b) || Below(b, a)
  {
    if |a| != 0 && |b| != 0 && a[0] == b[0] {
      BelowTotal(a[1..], b[1..]);
    }
  }

  lemma {:induction false} BelowTransitive(a: bytes, b: bytes, c: bytes)
    requires Below(a, b) && Below(b, c)
    ensures Below(a, c)
  {
    if |a| != 0 && |b| != 0 && |c| != 0 && a[0] == b[0] && b[0] == c[0] {
      BelowTransitive(a[1..], b[1..], c[1..]);
    }
  }

  /** `m` is the smallest element of `s`. */
  predicate IsLeast(m: bytes, s: set<bytes>) {
    m in s && forall k :: k in s ==> Below(m, k)
  }

  lemma {:induction false} LeastExists(s: set<bytes>)
    requires s != {}
    ensures exists m :: IsLeast(m, s)
    decreases s
  {
    var x :| x in s;
    BelowTotal(x, x);
    if s != {x} {
      LeastExists(s - {x});
      var m :| IsLeast(m, s - {x});
      BelowTotal(x, m);
      if Below(x, m) {
        forall k | k in s ensures Below(x, k) {
          if k != x { BelowTransitive(x, m, k); }
        }
        assert IsLeast(x, s);
      } else {
        assert IsLeast(m, s);
      }
    } else {
      assert IsLeast(x, s);
    }
  }

  lemma LeastUnique()
    ensures forall a, b, s :: IsLeast(a, s) && IsLeast(b, s) ==> a == b
  {
    forall a, b, s | IsLeast(a, s) && IsLeast(b, s) ensures a == b {
      BelowAntisymmetric(a, b);
    }
  }

  /**
   * Python's `sorted` on a set of byte-string keys: every key of `s` and
   * nothing else (SortedKeysAscending: strictly ascending).
   */
  function SortedKeys(s: set<bytes>): (r: seq<bytes>)
    ensures forall k :: k in r <==> k in s
    decreases s
  {
    if s == {} then []
    else
      LeastExists(s);
      LeastUnique();
      var m :| IsLeast(m, s);
      [m] + SortedKeys(s - {m})
  }

  /** The keys come out in strictly ascending order, so each one once. */
  lemma {:induction false} SortedKeysAscending(s: set<bytes>)
    ensures var r := SortedKeys(s);
      forall i, j :: 0 <= i < j < |r| ==> Below(r[i], r[j]) && r[i] != r[j]
    decreases s
  {
    if s != {} {
      var r := SortedKeys(s);
      var m := r[0];
      assert IsLeast(m, s) && r[1..] == SortedKeys(s - {m});
      SortedKeysAscending(s - {m});
      forall i, j | 0 <= i < j < |r| ensures Below(r[i], r[j]) && r[i] != r[j] {
        if i > 0 {
          assert r[i] == r[1..][i - 1] && r[j] == r[1..][j - 1];
        } else {
          assert r[j] in s - {m};
        }
      }
    }
  }

  // ---------------------------------------------------------------------------
  // Positions in a byte string.

  /** The bytes `w` occur in `s` starting at index `p`. */
  predicate At(s: bytes, p: nat, w: bytes) {
    p + |w| <= |s| && forall i :: 0 <= i < |w| ==> s[p + i] == w[i]
  }

  /** `At` says that the slice of `s` at `p` is `w`. */
  lemma AtSlice(s: bytes, p: nat, w: bytes)
    ensures At(s, p, w) <==> p + |w| <= |s| && s[p..p + |w|] == w
  {
    if p + |w| <= |s| && s[p..p + |w|] == w {
      forall i | 0 <= i < |w| ensures s[p + i] == w[i] {
        assert s[p..p + |w|][i] == s[p + i];
      }
    }
  }

  lemma AtConcat(s: bytes, p: nat, a: bytes, b: bytes)
    ensures At(s, p, a + b) <==> At(s, p, a) && At(s, p + |a|, b)
  {
    if At(s, p, a + b) {
      forall i | 0 <= i < |a| ensures s[p + i] == a[i] {
        assert (a + b)[i] == a[i];
      }
      forall i | 0 <= i < |b| ensures s[p + |a| + i] == b[i] {
        assert (a + b)[|a| + i] == b[i];
      }
    }
    if At(s, p, a) && At(s, p + |a|, b) {
      forall i | 0 <= i < |a + b| ensures s[p + i] == (a + b)[i] {
        if i >= |a| {
          assert s[p + |a| + (i - |a|)] == b[i - |a|];
        }
      }
    }
  }

  /**
   * Python's `s.find(pat, start)` for a non-negative `start`: the first index at
   * or after `start` where `pat` occurs, or -1.
   */
  function Find(s: bytes, pat: bytes, start: nat): (r: int)
    ensures r == -1 || (start <= r && At(s, r, pat))
    ensures r == -1 ==> forall j :: start <= j && j + |pat| <= |s| ==> !At(s, j, pat)
    ensures r != -1 ==> forall j :: start <= j < r ==> !At(s, j, pat)
    decreases |s| - start
  {
    if start + |pat| > |s| then -1
    else if At(s, start, pat) then start
    else Find(s, pat, start + 1)
  }

  /** Where Python's slice bound `x` falls in a sequence of length `n`. */
  function SliceBound(x: int, n: nat): (r: nat)
    ensures r <= n
  {
    if x < 0 then (if n + x < 0 then 0 else n + x) else if x > n then n else x
  }

  /** Python's `s[start:end]`; negative bounds count from the end. */
  function Slice(s: bytes, start: int, end: int): (r: bytes)
    ensures |r| <= |s|
    ensures 0 <= start <= end <= |s| ==> r == s[start..end]
  {
    var lo := SliceBound(start, |s|);
    var hi := SliceBound(end, |s|);
    if lo < hi then s[lo..hi] else []
  }
}
