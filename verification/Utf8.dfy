/** UTF-8 as section 3 and 4 of RFC 3629 define it. */
module Utf8 {
  import opened Prelude

  predicate IsCont(b: byte) { 0x80 <= b < 0xC0 }

  /** Length of the well-formed character that `s` starts with, or 0. */
  function CharLen(s: seq<byte>): (n: nat)
    ensures n <= |s| && n <= 4
    ensures n > 0 ==> !IsCont(s[0])
    ensures n > 1 ==> s[0] >= 0xC2
    ensures forall i :: 1 <= i < n ==> IsCont(s[i])
  {
    if s == [] then 0
    else if s[0] < 0x80 then 1
    else if 0xC2 <= s[0] <= 0xDF then if |s| >= 2 && IsCont(s[1]) then 2 else 0
    else if 0xE0 <= s[0] <= 0xEF then
      if |s| >= 3 && IsCont(s[1]) && IsCont(s[2])
         && (s[0] == 0xE0 ==> s[1] >= 0xA0) && (s[0] == 0xED ==> s[1] < 0xA0) then 3 else 0
    else if 0xF0 <= s[0] <= 0xF4 then
      if |s| >= 4 && IsCont(s[1]) && IsCont(s[2]) && IsCont(s[3])
         && (s[0] == 0xF0 ==> s[1] >= 0x90) && (s[0] == 0xF4 ==> s[1] < 0x90) then 4 else 0
    else 0
  }

  predicate ValidUtf8(s: seq<byte>)
    decreases |s|
  {
    s == [] || (CharLen(s) > 0 && ValidUtf8(s[CharLen(s)..]))
  }

  lemma InsideChar(s: seq<byte>, k: nat)
    requires 0 < k < CharLen(s)
    ensures k < |s| && IsCont(s[k])
  {
  }

  /** Cutting valid UTF-8 in front of anything but a continuation byte leaves valid UTF-8. */
  lemma {:induction false} ValidSuffix(s: seq<byte>, k: nat)
    requires ValidUtf8(s) && k <= |s| && (k == |s| || !IsCont(s[k]))
    ensures ValidUtf8(s[k..])
    decreases |s|
  {
    if k == 0 {
      assert s[0..] == s;
    } else if k < |s| || CharLen(s) < k {
      var n := CharLen(s);
      if k < n { InsideChar(s, k); }
      ValidSuffix(s[n..], k - n);
      assert s[n..][k - n..] == s[k..];
    }
  }

  /** What follows an ASCII byte is no continuation byte. */
  lemma {:induction false} AfterAscii(s: seq<byte>, k: nat)
    requires ValidUtf8(s) && k < |s| && s[k] < 0x80
    ensures k + 1 == |s| || !IsCont(s[k + 1])
    decreases |s|
  {
    var n := CharLen(s);
    if k < n {
      assert k == 0 && n == 1;
      if |s| > 1 {
        assert CharLen(s[1..]) > 0 && s[1..][0] == s[1];
      }
    } else {
      assert s[n..][k - n] == s[k];
      AfterAscii(s[n..], k - n);
    }
  }

  // ---------------------------------------------------------------- encoding

  /** A Unicode scalar value: a code point outside the surrogate range. */
  type Scalar = c: int | 0 <= c < 0x110000 && !(0xD800 <= c < 0xE000)

  function Encode(c: Scalar): (s: seq<byte>)
    ensures 1 <= |s| <= 4
  {
    if c < 0x80 then [c]
    else if c < 0x800 then [0xC0 + c / 0x40, 0x80 + c % 0x40]
    else if c < 0x10000 then [0xE0 + c / 0x1000, 0x80 + c / 0x40 % 0x40, 0x80 + c % 0x40]
    else [0xF0 + c / 0x40000, 0x80 + c / 0x1000 % 0x40, 0x80 + c / 0x40 % 0x40, 0x80 + c % 0x40]
  }

  function EncodeAll(cs: seq<Scalar>): seq<byte> {
    if cs == [] then [] else Encode(cs[0]) + EncodeAll(cs[1..])
  }

  lemma EncodeLeads(c: Scalar, rest: seq<byte>)
    ensures CharLen(Encode(c) + rest) == |Encode(c)|
  {
    var s := Encode(c) + rest;
    if 0x800 <= c < 0x10000 {
      assert c / 0x1000 == 0 ==> c / 0x40 % 0x40 >= 0x20;
      assert c / 0x1000 == 0xD ==> c / 0x40 % 0x40 < 0x20;
    } else if c >= 0x10000 {
      assert c / 0x40000 == 0 ==> c / 0x1000 % 0x40 >= 0x10;
      assert c / 0x40000 == 4 ==> c / 0x1000 % 0x40 < 0x10;
    }
  }

  /** Everything the encoder produces is valid. */
  lemma {:induction false} EncodedIsValid(cs: seq<Scalar>)
    ensures ValidUtf8(EncodeAll(cs))
  {
    if cs != [] {
      EncodedIsValid(cs[1..]);
      EncodeLeads(cs[0], EncodeAll(cs[1..]));
      var s := EncodeAll(cs);
      assert s[|Encode(cs[0])|..] == EncodeAll(cs[1..]);
    }
  }
}
