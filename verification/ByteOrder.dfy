/**
 * String order as the database sees it (src/main/db.ts compareBytes, codeUnitRank): UTF-16
 * code units compared so that the result is the order of the UTF-8 encodings.
 */
module ByteOrder {
  import opened Prelude
  import opened Utf8

  type CodeUnit = u: int | 0 <= u < 0x10000

  predicate IsHigh(u: CodeUnit) { 0xD800 <= u < 0xDC00 }

  predicate IsLow(u: CodeUnit) { 0xDC00 <= u < 0xE000 }

  // ---------------------------------------------------------------- UTF-16 (section 2.1 of RFC 2781)

  /** Code units taken by the first character of `s`. */
  function UnitLen(s: seq<CodeUnit>): (n: nat)
    requires s != []
    ensures 1 <= n <= 2
  {
    if IsHigh(s[0]) then 2 else 1
  }

  predicate WellFormed(s: seq<CodeUnit>)
    decreases |s|
  {
    s == [] || (
      && !IsLow(s[0])
      && (IsHigh(s[0]) ==> |s| >= 2 && IsLow(s[1]))
      && WellFormed(s[UnitLen(s)..]))
  }

  function FirstChar(s: seq<CodeUnit>): (c: Scalar)
    requires s != [] && WellFormed(s)
    ensures c < 0x10000 <==> UnitLen(s) == 1
  {
    if IsHigh(s[0]) then
      var hi: int, lo: int := s[0], s[1];
      0x10000 + (hi - 0xD800) * 0x400 + (lo - 0xDC00)
    else s[0]
  }

  function Decode(s: seq<CodeUnit>): seq<Scalar>
    requires WellFormed(s)
    decreases |s|
  {
    if s == [] then [] else [FirstChar(s)] + Decode(s[UnitLen(s)..])
  }

  function Utf8Of(s: seq<CodeUnit>): seq<byte>
    requires WellFormed(s)
  {
    EncodeAll(Decode(s))
  }

  // ---------------------------------------------------------------- the comparison

  function Rank(c: CodeUnit): (r: int)
    ensures 0 <= r < 0x10000
  {
    if c < 0xD800 then c else if c < 0xE000 then c + 0x2000 else c - 0x800
  }

  /** What compareBytes returns. */
  function Compare(a: seq<CodeUnit>, b: seq<CodeUnit>): int
    decreases |a|
  {
    if a == [] || b == [] then |a| - |b|
    else if a[0] == b[0] then Compare(a[1..], b[1..])
    else Rank(a[0]) - Rank(b[0])
  }

  method CompareBytes(a: seq<CodeUnit>, b: seq<CodeUnit>) returns (r: int)
    ensures r == Compare(a, b)
  {
    if a == b {
      CompareSelf(a);
      return 0;
    }
    var n := Min(|a|, |b|);
    var i := 0;
    assert a[0..] == a && b[0..] == b;
    while i < n
      invariant 0 <= i <= n && Compare(a[i..], b[i..]) == Compare(a, b)
    {
      var x, y := a[i], b[i];
      if x != y {
        return Rank(x) - Rank(y);
      }
      assert a[i..][1..] == a[i + 1..] && b[i..][1..] == b[i + 1..];
      i := i + 1;
    }
    r := |a| - |b|;
  }

  // ----- a total order on all strings

  lemma {:induction false} CompareSelf(a: seq<CodeUnit>)
    ensures Compare(a, a) == 0
  {
    if a != [] { CompareSelf(a[1..]); }
  }

  lemma {:induction false} CompareFlips(a: seq<CodeUnit>, b: seq<CodeUnit>)
    ensures Compare(b, a) == -Compare(a, b)
    decreases |a|
  {
    if a != [] && b != [] && a[0] == b[0] { CompareFlips(a[1..], b[1..]); }
  }

  lemma {:induction false} CompareZero(a: seq<CodeUnit>, b: seq<CodeUnit>)
    ensures Compare(a, b) == 0 <==> a == b
    decreases |a|
  {
    if a != [] && b != [] {
      if a[0] == b[0] {
        CompareZero(a[1..], b[1..]);
        assert a == [a[0]] + a[1..] && b == [b[0]] + b[1..];
      }
    }
  }

  lemma {:induction false} CompareChains(a: seq<CodeUnit>, b: seq<CodeUnit>, c: seq<CodeUnit>)
    requires Compare(a, b) <= 0 && Compare(b, c) <= 0
    ensures Compare(a, c) <= 0
    ensures Compare(a, b) < 0 || Compare(b, c) < 0 ==> Compare(a, c) < 0
    decreases |a|
  {
    if a != [] && b != [] && c != [] && a[0] == b[0] && b[0] == c[0] {
      CompareChains(a[1..], b[1..], c[1..]);
    }
  }

  // ---------------------------------------------------------------- the order of UTF-8 encodings

  /** Lexicographic order of byte strings: -1, 0 or 1. */
  function Lex(x: seq<byte>, y: seq<byte>): int
    decreases |x|
  {
    if x == [] && y == [] then 0
    else if x == [] then -1
    else if y == [] then 1
    else if x[0] < y[0] then -1
    else if x[0] > y[0] then 1
    else Lex(x[1..], y[1..])
  }

  lemma {:induction false} LexFlips(x: seq<byte>, y: seq<byte>)
    ensures Lex(y, x) == -Lex(x, y)
    decreases |x|
  {
    if x != [] && y != [] && x[0] == y[0] { LexFlips(x[1..], y[1..]); }
  }

  lemma {:induction false} LexStrip(p: seq<byte>, x: seq<byte>, y: seq<byte>)
    ensures Lex(p + x, p + y) == Lex(x, y)
    decreases |p|
  {
    if p == [] {
      assert p + x == x && p + y == y;
    } else {
      assert (p + x)[1..] == p[1..] + x && (p + y)[1..] == p[1..] + y;
      LexStrip(p[1..], x, y);
    }
  }

  lemma {:induction false} LexAt(x: seq<byte>, y: seq<byte>, k: nat)
    requires k < |x| && k < |y| && x[..k] == y[..k] && x[k] < y[k]
    ensures Lex(x, y) == -1
    decreases k
  {
    if k > 0 {
      assert x[0] == x[..k][0] == y[..k][0] == y[0];
      assert x[1..][..k - 1] == x[..k][1..] == y[..k][1..] == y[1..][..k - 1];
      LexAt(x[1..], y[1..], k - 1);
    }
  }

  /** Dropping the last base-64 digit keeps the order, or leaves it to that digit. */
  lemma DigitOrder(c: nat, d: nat)
    requires c < d
    ensures c / 0x40 < d / 0x40 || (c / 0x40 == d / 0x40 && c % 0x40 < d % 0x40)
  {
  }

  /** `x` is below `y` at position `k`, and equal to it before. */
  predicate Below(x: seq<byte>, y: seq<byte>, k: nat) {
    k < |x| && k < |y| && (forall i :: 0 <= i < k ==> x[i] == y[i]) && x[k] < y[k]
  }

  lemma EncodeOrder2(c: Scalar, d: Scalar) returns (k: nat)
    requires 0x80 <= c < d < 0x800
    ensures Below(Encode(c), Encode(d), k)
  {
    DigitOrder(c, d);
    k := if c / 0x40 == d / 0x40 then 1 else 0;
  }

  lemma EncodeOrder3(c: Scalar, d: Scalar) returns (k: nat)
    requires 0x800 <= c < d < 0x10000
    ensures Below(Encode(c), Encode(d), k)
  {
    DigitOrder(c, d);
    assert c / 0x1000 == c / 0x40 / 0x40 && d / 0x1000 == d / 0x40 / 0x40;
    if c / 0x40 == d / 0x40 {
      k := 2;
    } else {
      DigitOrder(c / 0x40, d / 0x40);
      k := if c / 0x1000 == d / 0x1000 then 1 else 0;
    }
  }

  lemma EncodeOrder4(c: Scalar, d: Scalar) returns (k: nat)
    requires 0x10000 <= c < d
    ensures Below(Encode(c), Encode(d), k)
  {
    DigitOrder(c, d);
    assert c / 0x1000 == c / 0x40 / 0x40 && d / 0x1000 == d / 0x40 / 0x40;
    assert c / 0x40000 == c / 0x1000 / 0x40 && d / 0x40000 == d / 0x1000 / 0x40;
    if c / 0x40 == d / 0x40 {
      k := 3;
    } else {
      DigitOrder(c / 0x40, d / 0x40);
      if c / 0x1000 == d / 0x1000 {
        k := 2;
      } else {
        DigitOrder(c / 0x1000, d / 0x1000);
        k := if c / 0x40000 == d / 0x40000 then 1 else 0;
      }
    }
  }

  /** Encodings are ordered as their characters, at a byte both have. */
  lemma EncodeOrder(c: Scalar, d: Scalar) returns (k: nat)
    requires c < d
    ensures Below(Encode(c), Encode(d), k)
  {
    k := 0;
    if 0x80 <= c && d < 0x800 {
      k := EncodeOrder2(c, d);
    } else if 0x800 <= c && d < 0x10000 {
      k := EncodeOrder3(c, d);
    } else if 0x10000 <= c {
      k := EncodeOrder4(c, d);
    }
  }

  lemma EncodedLess(c: Scalar, x: seq<byte>, d: Scalar, y: seq<byte>)
    requires c < d
    ensures Lex(Encode(c) + x, Encode(d) + y) == -1
  {
    var k := EncodeOrder(c, d);
    LexAt(Encode(c) + x, Encode(d) + y, k);
  }

  /** Strings that differ in their first character compare as those characters do. */
  lemma FirstCharDecides(a: seq<CodeUnit>, b: seq<CodeUnit>)
    requires WellFormed(a) && WellFormed(b) && a != [] && b != [] && FirstChar(a) < FirstChar(b)
    ensures Compare(a, b) < 0
  {
    if a[0] == b[0] {
      assert Compare(a, b) == Compare(a[1..], b[1..]) == Rank(a[1]) - Rank(b[1]);
    }
  }

  lemma FirstCharSame(a: seq<CodeUnit>, b: seq<CodeUnit>)
    requires WellFormed(a) && WellFormed(b) && a != [] && b != [] && FirstChar(a) == FirstChar(b)
    ensures UnitLen(a) == UnitLen(b) && Compare(a, b) == Compare(a[UnitLen(a)..], b[UnitLen(b)..])
  {
    if UnitLen(a) == 2 {
      assert a[0] == b[0] && a[1] == b[1];
      assert a[1..][1..] == a[2..] && b[1..][1..] == b[2..];
    }
  }

  function Sign(n: int): int { if n < 0 then -1 else if n > 0 then 1 else 0 }

  lemma Utf8OfCons(a: seq<CodeUnit>)
    requires WellFormed(a) && a != []
    ensures Utf8Of(a) == Encode(FirstChar(a)) + Utf8Of(a[UnitLen(a)..])
  {
    assert ([FirstChar(a)] + Decode(a[UnitLen(a)..]))[1..] == Decode(a[UnitLen(a)..]);
  }

  /** The encoding compared against is valid UTF-8. */
  lemma Utf8OfIsValid(s: seq<CodeUnit>)
    requires WellFormed(s)
    ensures ValidUtf8(Utf8Of(s))
  {
    EncodedIsValid(Decode(s));
  }

  /** On well-formed strings, comparing code units is comparing UTF-8 bytes. */
  lemma {:induction false} CompareIsUtf8Order(a: seq<CodeUnit>, b: seq<CodeUnit>)
    requires WellFormed(a) && WellFormed(b)
    ensures Sign(Compare(a, b)) == Lex(Utf8Of(a), Utf8Of(b))
    decreases |a|
  {
    if a != [] { Utf8OfCons(a); }
    if b != [] { Utf8OfCons(b); }
    if a != [] && b != [] {
      var c, d := FirstChar(a), FirstChar(b);
      var x, y := Utf8Of(a[UnitLen(a)..]), Utf8Of(b[UnitLen(b)..]);
      if c == d {
        FirstCharSame(a, b);
        LexStrip(Encode(c), x, y);
        CompareIsUtf8Order(a[UnitLen(a)..], b[UnitLen(b)..]);
      } else if c < d {
        FirstCharDecides(a, b);
        EncodedLess(c, x, d, y);
      } else {
        FirstCharDecides(b, a);
        CompareFlips(a, b);
        EncodedLess(d, y, c, x);
        LexFlips(Encode(d) + y, Encode(c) + x);
      }
    }
  }
}
