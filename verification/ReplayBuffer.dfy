/** The replay ring of a session tap (src/host/attachHub.ts ReplayBuffer, trimToSafeStart). */
module Replay {
  import opened Prelude
  import opened Utf8

  /** The last `cap` bytes of a history. */
  function LastBytes(h: seq<byte>, cap: nat): seq<byte> {
    if |h| <= cap then h else h[|h| - cap..]
  }

  /** The first position of `x`, or the length. */
  function First(b: seq<byte>, x: byte): (n: nat)
    ensures n <= |b| && (n < |b| ==> b[n] == x) && (forall k :: 0 <= k < n ==> b[k] != x)
  {
    if b == [] || b[0] == x then 0 else 1 + First(b[1..], x)
  }

  /** How many continuation bytes `b` starts with. */
  function LeadingConts(b: seq<byte>): (n: nat)
    ensures n <= |b| && (n < |b| ==> !IsCont(b[n])) && (forall k :: 0 <= k < n ==> IsCont(b[k]))
  {
    if b == [] || !IsCont(b[0]) then 0 else 1 + LeadingConts(b[1..])
  }

  /** The earliest position that cannot lie inside an escape sequence or a character. */
  function SafeStart(b: seq<byte>): (n: nat)
    ensures n <= |b|
  {
    var esc, nl := First(b, ESC), First(b, LF);
    if esc == |b| && nl == |b| then LeadingConts(b)
    else if esc == |b| then nl + 1
    else if nl == |b| then esc
    else Min(esc, nl + 1)
  }

  /** What a newcomer is sent after the output `h`. */
  function Snapshot(h: seq<byte>, cap: nat): seq<byte> {
    if |h| <= cap then h else LastBytes(h, cap)[SafeStart(LastBytes(h, cap))..]
  }

  /** The cut is at the end, in front of a non-continuation byte, or behind a line feed. */
  lemma SafeStartCut(b: seq<byte>)
    ensures var k := SafeStart(b); k == |b| || !IsCont(b[k]) || (k > 0 && b[k - 1] == LF)
  {
  }

  lemma CutIsValid(h: seq<byte>, at: nat)
    requires ValidUtf8(h) && at <= |h|
    requires at == |h| || !IsCont(h[at]) || (at > 0 && h[at - 1] == LF)
    ensures ValidUtf8(h[at..])
  {
    if at > 0 && h[at - 1] == LF {
      AfterAscii(h, at - 1);
    }
    ValidSuffix(h, at);
  }

  /** A snapshot is what follows some position of the output that is safe to cut at. */
  lemma SnapshotCut(h: seq<byte>, cap: nat) returns (at: nat)
    ensures |h| - cap <= at <= |h| && Snapshot(h, cap) == h[at..]
    ensures at == 0 || at == |h| || !IsCont(h[at]) || h[at - 1] == LF
  {
    at := 0;
    if |h| > cap {
      var b := LastBytes(h, cap);
      var k := SafeStart(b);
      SafeStartCut(b);
      at := |h| - cap + k;
      assert b[k..] == h[at..];
    }
  }

  /** A snapshot is a suffix of the output, of at most `cap` bytes, and never cuts a character. */
  lemma SnapshotIsWhole(h: seq<byte>, cap: nat)
    ensures |Snapshot(h, cap)| <= cap && Snapshot(h, cap) == h[|h| - |Snapshot(h, cap)|..]
    ensures ValidUtf8(h) ==> ValidUtf8(Snapshot(h, cap))
  {
    var at := SnapshotCut(h, cap);
    if ValidUtf8(h) && at > 0 {
      CutIsValid(h, at);
    }
    assert h[0..] == h;
  }

  /** The ring holds as many of the latest bytes as fit, without a gap. */
  lemma LastBytesAreTheLast(h: seq<byte>, cap: nat)
    ensures var l := LastBytes(h, cap);
      |l| == Min(|h|, cap) && h == h[..|h| - |l|] + l
  {
  }

  /** Output may start at `i`: an escape sequence begins there, or a line. */
  predicate Fit(b: seq<byte>, i: nat) {
    (i < |b| && b[i] == ESC) || (0 < i <= |b| && b[i - 1] == LF)
  }

  /** The trim goes to the first such position; without one it only drops the rest of a character. */
  lemma SafeStartIsEarliest(b: seq<byte>)
    ensures var k := SafeStart(b);
      if exists i :: 0 <= i <= |b| && Fit(b, i) then Fit(b, k) && forall i :: 0 <= i < k ==> !Fit(b, i)
      else (forall i :: 0 <= i < k ==> IsCont(b[i])) && (k < |b| ==> !IsCont(b[k]))
  {
    var esc, nl, k := First(b, ESC), First(b, LF), SafeStart(b);
    if esc < |b| || nl < |b| {
      assert Fit(b, k);
      assert forall i :: 0 <= i < k ==> !Fit(b, i);
    } else {
      assert forall i :: 0 <= i <= |b| ==> !Fit(b, i);
    }
  }

  /** So a newcomer is sent everything while it fits, and otherwise the ring from the first fit position on. */
  lemma SnapshotIsLongest(h: seq<byte>, cap: nat)
    ensures |h| <= cap ==> Snapshot(h, cap) == h
    ensures |h| > cap ==>
      var b := h[|h| - cap..];
      var k := |b| - |Snapshot(h, cap)|;
      && 0 <= k && Snapshot(h, cap) == b[k..]
      && (forall i :: 0 <= i < k ==> !Fit(b, i))
      && (Fit(b, k) || ((forall i :: 0 <= i < k ==> IsCont(b[i])) && (k < |b| ==> !IsCont(b[k]))))
  {
    if |h| > cap {
      var b := h[|h| - cap..];
      SafeStartIsEarliest(b);
      var k := SafeStart(b);
      assert Snapshot(h, cap) == b[k..] && k == |b| - |Snapshot(h, cap)|;
      if !Fit(b, k) { assert forall i :: 0 <= i <= |b| ==> !Fit(b, i); }
    }
  }

  lemma LastBytesGrow(h: seq<byte>, b: seq<byte>, cap: nat)
    ensures LastBytes(h + b, cap) == LastBytes(LastBytes(h, cap) + b, cap)
    ensures |h + b| > cap <==> |h| > cap || |LastBytes(h, cap) + b| > cap
  {
  }

  method IndexOf(b: seq<byte>, x: byte) returns (i: int)
    ensures if i < 0 then i == -1 && First(b, x) == |b| else i == First(b, x) < |b|
  {
    i := 0;
    while i < |b|
      invariant 0 <= i <= |b| && forall k :: 0 <= k < i ==> b[k] != x
    {
      if b[i] == x {
        return;
      }
      i := i + 1;
    }
    i := -1;
  }

  method TrimToSafeStart(b: seq<byte>) returns (r: seq<byte>)
    ensures r == b[SafeStart(b)..]
  {
    if |b| == 0 {
      return b;
    }
    var esc := IndexOf(b, ESC);
    var nl := IndexOf(b, LF);
    if esc < 0 && nl < 0 {
      var i := 0;
      while i < |b| && IsCont(b[i])
        invariant 0 <= i <= |b| && forall k :: 0 <= k < i ==> IsCont(b[k])
      {
        i := i + 1;
      }
      return b[i..];
    }
    if esc < 0 {
      return b[nl + 1..];
    }
    if nl < 0 {
      return b[esc..];
    }
    r := if esc < nl + 1 then b[esc..] else b[nl + 1..];
  }

  lemma HeadDropped(chunks: seq<seq<byte>>, all: seq<byte>, gone: nat)
    requires chunks != [] && gone <= |all| && Flatten(chunks) == all[gone..]
    ensures gone + |chunks[0]| <= |all| && Flatten(chunks[1..]) == all[gone + |chunks[0]|..]
  {
    assert Flatten(chunks[1..]) == Flatten(chunks)[|chunks[0]|..];
  }

  lemma HeadTrimmed(chunks: seq<seq<byte>>, all: seq<byte>, gone: nat, n: nat)
    requires chunks != [] && gone <= |all| && Flatten(chunks) == all[gone..] && n <= |chunks[0]|
    ensures gone + n <= |all| && Flatten([chunks[0][n..]] + chunks[1..]) == all[gone + n..]
  {
    var trimmed := [chunks[0][n..]] + chunks[1..];
    assert trimmed[1..] == chunks[1..];
    assert Flatten(trimmed) == Flatten(chunks)[n..];
  }

  class ReplayBuffer {
    const cap: nat
    var chunks: seq<seq<byte>>
    var size: nat
    var wrapped: bool
    ghost var history: seq<byte>

    ghost predicate Valid()
      reads this
    {
      && Flatten(chunks) == LastBytes(history, cap) && size == |Flatten(chunks)|
      && (wrapped <==> |history| > cap)
    }

    constructor (cap: nat)
      ensures Valid() && this.cap == cap && history == []
    {
      this.cap := cap;
      chunks, size, wrapped, history := [], 0, false, [];
    }

    method Append(b: seq<byte>)
      requires Valid()
      modifies this
      ensures Valid() && history == old(history) + b
    {
      FlattenSnoc(chunks, b);
      LastBytesGrow(history, b, cap);
      chunks := chunks + [b];
      size := size + |b|;
      Evict();
      history := history + b;
    }

    /** append's loop: drops or trims the oldest chunk until the rest fits. */
    method Evict()
      requires size == |Flatten(chunks)|
      modifies this`chunks, this`size, this`wrapped
      ensures Flatten(chunks) == LastBytes(old(Flatten(chunks)), cap) && size == |Flatten(chunks)|
      ensures wrapped <==> old(wrapped) || old(size) > cap
    {
      ghost var all, gone := Flatten(chunks), 0;
      while size > cap
        invariant 0 <= gone <= |all| && size == |all| - gone && Min(cap, |all|) <= size && Flatten(chunks) == all[gone..]
        invariant (old(wrapped) || gone > 0 ==> wrapped) && (wrapped ==> old(wrapped) || old(size) > cap)
        decreases size, |chunks|
      {
        var head := chunks[0];
        var excess := size - cap;
        wrapped := true;
        if |head| <= excess {
          HeadDropped(chunks, all, gone);
          chunks := chunks[1..];
          size := size - |head|;
          gone := gone + |head|;
        } else {
          HeadTrimmed(chunks, all, gone, excess);
          chunks := [head[excess..]] + chunks[1..];
          size := size - excess;
          gone := gone + excess;
        }
      }
    }

    method TakeSnapshot() returns (r: seq<byte>)
      requires Valid()
      ensures r == Snapshot(history, cap)
    {
      var all := Flatten(chunks);
      r := all;
      if wrapped {
        r := TrimToSafeStart(all);
      }
    }
  }
}
