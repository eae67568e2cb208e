/** How the MCP sockets cut their input into lines without buffering more than a limit (src/main/mcpLines.ts). */
module LineSplitter {
  import opened Prelude
  import opened ByteOrder

  type Str = seq<CodeUnit>

  const NEWLINE: CodeUnit := 0x0A

  // ---------------------------------------------------------------- Buffer.byteLength

  predicate Pair(s: Str) { |s| >= 2 && IsHigh(s[0]) && IsLow(s[1]) }

  /** UTF-8 bytes of `s`; a lone surrogate becomes U+FFFD, three bytes. */
  function ByteLength(s: Str): nat
    decreases |s|
  {
    if s == [] then 0
    else if Pair(s) then 4 + ByteLength(s[2..])
    else (if s[0] < 0x80 then 1 else if s[0] < 0x800 then 2 else 3) + ByteLength(s[1..])
  }

  /** The bound on the buffer is sound: UTF-8 never takes fewer bytes than UTF-16 takes units. */
  lemma {:induction false} ByteLengthAtLeast(s: Str)
    ensures ByteLength(s) >= |s|
    decreases |s|
  {
    if s != [] { ByteLengthAtLeast(if Pair(s) then s[2..] else s[1..]); }
  }

  lemma {:induction false} ByteLengthIsUtf8(s: Str)
    requires WellFormed(s)
    ensures ByteLength(s) == |Utf8Of(s)|
    decreases |s|
  {
    if s != [] {
      Utf8OfCons(s);
      ByteLengthIsUtf8(s[UnitLen(s)..]);
    }
  }

  // ---------------------------------------------------------------- the stream as lines

  /** Complete lines, and what follows the last newline. */
  datatype Text = Text(lines: seq<Str>, tail: Str)

  function Split(s: Str): Text {
    if s == [] then Text([], [])
    else Add(Split(s[..|s| - 1]), s[|s| - 1])
  }

  function Add(t: Text, u: CodeUnit): Text {
    if u == NEWLINE then Text(t.lines + [t.tail], []) else Text(t.lines, t.tail + [u])
  }

  /** The lines, each with its newline. */
  function Joined(lines: seq<Str>): Str {
    if lines == [] then [] else Joined(lines[..|lines| - 1]) + (lines[|lines| - 1] + [NEWLINE])
  }

  /** The stream that `t` was read from. */
  function Unsplit(t: Text): Str { Joined(t.lines) + t.tail }

  ghost predicate NoBreaks(t: Text) {
    NEWLINE !in t.tail && forall i :: 0 <= i < |t.lines| ==> NEWLINE !in t.lines[i]
  }

  lemma JoinedSnoc(lines: seq<Str>, l: Str)
    ensures Joined(lines + [l]) == Joined(lines) + l + [NEWLINE]
  {
    assert (lines + [l])[..|lines|] == lines;
    Assoc(Joined(lines), l, [NEWLINE]);
  }

  lemma AddKeeps(t: Text, u: CodeUnit)
    requires NoBreaks(t)
    ensures NoBreaks(Add(t, u)) && Unsplit(Add(t, u)) == Unsplit(t) + [u]
  {
    if u == NEWLINE {
      JoinedSnoc(t.lines, t.tail);
      Units(Joined(t.lines) + t.tail + [u]);
    } else {
      Assoc(Joined(t.lines), t.tail, [u]);
    }
  }

  /** Split loses nothing and leaves no newline inside a line. */
  lemma {:induction false} SplitRebuilds(s: Str)
    ensures Unsplit(Split(s)) == s && NoBreaks(Split(s))
  {
    if s != [] {
      var init, u := s[..|s| - 1], s[|s| - 1];
      SplitRebuilds(init);
      AddKeeps(Split(init), u);
      assert s == init + [u];
    }
  }

  lemma SplitSnoc(s: Str, u: CodeUnit)
    ensures Split(s + [u]) == Add(Split(s), u)
  {
    assert (s + [u])[..|s|] == s;
  }

  /** Text up to the next newline only lengthens the tail. */
  lemma {:induction false} SplitPart(s: Str, part: Str)
    requires NEWLINE !in part
    ensures Split(s + part) == Text(Split(s).lines, Split(s).tail + part)
  {
    Units(s);
    Units(Split(s).tail);
    if part != [] {
      var init, u := part[..|part| - 1], part[|part| - 1];
      assert part == init + [u];
      SplitPart(s, init);
      Assoc(s, init, [u]);
      SplitSnoc(s + init, u);
      Assoc(Split(s).tail, init, [u]);
    }
  }

  lemma SplitLine(s: Str, part: Str)
    requires NEWLINE !in part
    ensures Split(s + part + [NEWLINE]) == Text(Split(s).lines + [Split(s).tail + part], [])
  {
    SplitPart(s, part);
    SplitSnoc(s + part, NEWLINE);
  }

  /** Split is the only such reading of a stream. */
  lemma {:induction false} SplitOfUnsplit(t: Text)
    requires NoBreaks(t)
    ensures Split(Unsplit(t)) == t
    decreases |t.lines|
  {
    var n := |t.lines|;
    if n == 0 {
      SplitPart([], t.tail);
      Units(t.tail);
    } else {
      var init, l := t.lines[..n - 1], t.lines[n - 1];
      assert t.lines == init + [l];
      SplitOfUnsplit(Text(init, []));
      var x := Joined(init);
      Units(x);
      JoinedSnoc(init, l);
      SplitLine(x, l);
      SplitPart(x + l + [NEWLINE], t.tail);
      Units(l);
      Units(t.tail);
    }
  }

  // ---------------------------------------------------------------- the callbacks

  datatype Call = Line(text: Str) | Oversize

  /** The limit, and the histories after which onLine answers false. */
  datatype Config = Config(max: nat, halts: iset<seq<Call>>)

  function Answer(c: Config, line: Str): Call {
    if ByteLength(line) > c.max then Oversize else Line(line)
  }

  /** The callbacks of complete lines, up to the one that stops the stream. */
  ghost function Heard(c: Config, lines: seq<Str>): seq<Call> {
    if lines == [] then []
    else
      var n := |lines| - 1;
      var before := Heard(c, lines[..n]);
      if Halted(c, before) then before else before + [Answer(c, lines[n])]
  }

  ghost predicate Halted(c: Config, calls: seq<Call>) {
    calls != [] && calls[|calls| - 1].Line? && calls in c.halts
  }

  /** All callbacks owed for a stream seen in one piece. */
  ghost function Owed(c: Config, s: Str): seq<Call> {
    var h := Heard(c, Split(s).lines);
    if !Halted(c, h) && |Split(s).tail| > c.max then h + [Oversize] else h
  }

  lemma HeardSnoc(c: Config, lines: seq<Str>, l: Str)
    ensures Heard(c, lines + [l])
      == if Halted(c, Heard(c, lines)) then Heard(c, lines) else Heard(c, lines) + [Answer(c, l)]
  {
    assert (lines + [l])[..|lines|] == lines;
  }

  /** Once stopped, nothing later is heard. */
  lemma {:induction false} HeardStays(c: Config, lines: seq<Str>, more: seq<Str>)
    requires Halted(c, Heard(c, lines))
    ensures Heard(c, lines + more) == Heard(c, lines)
    decreases |more|
  {
    if more == [] {
      Units(lines);
    } else {
      var n := |more| - 1;
      HeardStays(c, lines, more[..n]);
      Assoc(lines, more[..n], [more[n]]);
      assert more == more[..n] + [more[n]];
      HeardSnoc(c, lines + more[..n], more[n]);
    }
  }

  lemma {:induction false} AnswersInOrder(c: Config, lines: seq<Str>)
    ensures var h := Heard(c, lines);
      && |h| <= |lines| && (|h| < |lines| ==> Halted(c, h))
      && (forall k :: 0 <= k < |h| ==> h[k] == Answer(c, lines[k]))
  {
    if lines != [] {
      var n := |lines| - 1;
      AnswersInOrder(c, lines[..n]);
      assert forall k :: 0 <= k < n ==> lines[..n][k] == lines[k];
    }
  }

  lemma {:induction false} StopsAtTheEnd(c: Config, lines: seq<Str>, k: nat)
    requires k < |Heard(c, lines)|
    ensures !Halted(c, Heard(c, lines)[..k])
  {
    var n := |lines| - 1;
    var before, h := Heard(c, lines[..n]), Heard(c, lines);
    if k < |before| {
      StopsAtTheEnd(c, lines[..n], k);
      assert h[..k] == before[..k];
    } else {
      assert h[..k] == before;
    }
  }

  /** The k-th callback is about the k-th line, and only the last one can stop the stream. */
  lemma OneCallPerLine(c: Config, lines: seq<Str>)
    ensures var h := Heard(c, lines);
      && |h| <= |lines|
      && (forall k :: 0 <= k < |h| ==> h[k] == Answer(c, lines[k]))
      && (forall k :: 0 <= k < |h| ==> !Halted(c, h[..k]))
      && (|h| < |lines| ==> Halted(c, h))
  {
    AnswersInOrder(c, lines);
    forall k | 0 <= k < |Heard(c, lines)| ensures !Halted(c, Heard(c, lines)[..k]) { StopsAtTheEnd(c, lines, k); }
  }

  /** What was heard stays heard when more of the stream arrives. */
  lemma {:induction false} SplitGrows(s: Str, more: Str) returns (extra: seq<Str>)
    ensures Split(s + more).lines == Split(s).lines + extra
    decreases |more|
  {
    if more == [] {
      Units(s);
      Units(Split(s).lines);
      extra := [];
    } else {
      var n := |more| - 1;
      extra := SplitGrows(s, more[..n]);
      assert more == more[..n] + [more[n]];
      Assoc(s, more[..n], [more[n]]);
      SplitSnoc(s + more[..n], more[n]);
      if more[n] == NEWLINE {
        var t := Split(s + more[..n]).tail;
        Assoc(Split(s).lines, extra, [t]);
        extra := extra + [t];
      }
    }
  }

  lemma StopIsFinal(c: Config, s: Str, more: Str)
    requires Halted(c, Heard(c, Split(s).lines))
    ensures Heard(c, Split(s + more).lines) == Heard(c, Split(s).lines)
  {
    var extra := SplitGrows(s, more);
    HeardStays(c, Split(s).lines, extra);
  }

  /** A well-formed line is passed on exactly if its UTF-8 encoding is within the limit. */
  lemma PassedOnExactly(c: Config, line: Str)
    requires WellFormed(line)
    ensures Answer(c, line) == if |Utf8Of(line)| <= c.max then Line(line) else Oversize
  {
    ByteLengthIsUtf8(line);
  }

  /** If nothing stops the stream: one call for each complete line, and one more for a tail that is too long already. */
  lemma OwedIsOnePerLine(c: Config, s: Str)
    requires c.halts == iset{}
    ensures var t, calls := Split(s), Owed(c, s);
      && |calls| == |t.lines| + (if |t.tail| > c.max then 1 else 0)
      && (forall k :: 0 <= k < |t.lines| ==>
            calls[k] == if ByteLength(t.lines[k]) <= c.max then Line(t.lines[k]) else Oversize)
      && (|t.tail| > c.max ==> calls[|t.lines|] == Oversize)
  {
    OneCallPerLine(c, Split(s).lines);
  }

  // ---------------------------------------------------------------- the splitter

  method IndexOfNewline(s: Str, start: nat) returns (nl: int)
    requires start <= |s|
    ensures nl == -1 || start <= nl < |s|
    ensures nl == -1 ==> NEWLINE !in s[start..]
    ensures nl >= 0 ==> s[nl] == NEWLINE && NEWLINE !in s[start..nl]
  {
    nl := start;
    while nl < |s|
      invariant start <= nl <= |s| && NEWLINE !in s[start..nl]
    {
      if s[nl] == NEWLINE {
        return;
      }
      assert s[start..nl + 1] == s[start..nl] + [s[nl]];
      nl := nl + 1;
    }
    return -1;
  }

  /** The state after `stream`; the buffer is the tail while that is short enough. */
  ghost predicate Matches(c: Config, stream: Str, buf: Str, skipping: bool, stopped: bool, calls: seq<Call>) {
    var t := Split(stream).tail;
    && calls == Owed(c, stream)
    && stopped == Halted(c, Heard(c, Split(stream).lines))
    && (stopped ==> !skipping && buf == [])
    && (!stopped ==> skipping == (|t| > c.max) && buf == if skipping then [] else t)
    && |buf| <= c.max
  }

  /** A newline ends the line: one answer, or none if its Oversize is already out. */
  lemma LineEnds(c: Config, stream: Str, buf: Str, skipping: bool, calls: seq<Call>, part: Str)
    requires Matches(c, stream, buf, skipping, false, calls) && NEWLINE !in part
    ensures var s', line := stream + part + [NEWLINE], buf + part;
      if skipping then Matches(c, s', [], false, false, calls)
      else if ByteLength(line) > c.max then Matches(c, s', [], false, false, calls + [Oversize])
      else Matches(c, s', [], false, calls + [Line(line)] in c.halts, calls + [Line(line)])
  {
    SplitLine(stream, part);
    var t := Split(stream);
    HeardSnoc(c, t.lines, t.tail + part);
    if skipping { ByteLengthAtLeast(t.tail + part); }
  }

  /** The rest of a chunk lengthens the tail, which may become oversize. */
  lemma TailGrows(c: Config, stream: Str, buf: Str, skipping: bool, calls: seq<Call>, part: Str)
    requires Matches(c, stream, buf, skipping, false, calls) && NEWLINE !in part
    ensures var long := !skipping && |buf + part| > c.max;
      Matches(c, stream + part, if skipping || long then [] else buf + part, skipping || long, false,
              if long then calls + [Oversize] else calls)
  {
    SplitPart(stream, part);
  }

  /** A stopped splitter owes nothing for further text. */
  lemma StoppedStays(c: Config, stream: Str, calls: seq<Call>, more: Str)
    requires Matches(c, stream, [], false, true, calls)
    ensures Matches(c, stream + more, [], false, true, calls)
  {
    StopIsFinal(c, stream, more);
  }

  lemma Advance(s: Str, chunk: Str, start: nat, nl: nat)
    requires start <= nl < |chunk| && chunk[nl] == NEWLINE
    ensures s + chunk[..start] + chunk[start..nl] + [NEWLINE] == s + chunk[..nl + 1]
  {
  }

  lemma Rest(s: Str, chunk: Str, start: nat)
    requires start <= |chunk|
    ensures s + chunk[..start] + chunk[start..] == s + chunk
  {
  }

  class Splitter {
    const max: nat
    const halts: iset<seq<Call>>
    var buf: Str
    var skipping: bool
    var stopped: bool
    var calls: seq<Call>           // callbacks made so far
    ghost var stream: Str          // everything fed so far

    ghost function Cfg(): Config { Config(max, halts) }

    /** Calls and state depend on the stream alone, not on the chunks it came in. */
    ghost predicate Valid()
      reads this
    {
      Matches(Cfg(), stream, buf, skipping, stopped, calls)
    }

    constructor (max: nat, halts: iset<seq<Call>>)
      ensures Valid() && stream == [] && calls == [] && this.max == max && this.halts == halts
    {
      this.max, this.halts := max, halts;
      buf, skipping, stopped, calls, stream := [], false, false, [], [];
    }

    /** `part` is followed by a newline. */
    method TakeLine(part: Str)
      requires Valid() && !stopped && NEWLINE !in part
      modifies this
      ensures Valid() && stream == old(stream) + part + [NEWLINE]
    {
      LineEnds(Cfg(), stream, buf, skipping, calls, part);
      stream := stream + part + [NEWLINE];
      if skipping {
        skipping := false;
        buf := [];
        return;
      }
      var line := buf + part;
      buf := [];
      if ByteLength(line) > max {
        calls := calls + [Oversize];
        return;
      }
      calls := calls + [Line(line)];
      if calls in halts {
        stopped := true;
      }
    }

    /** After the loop: keep what follows the last newline, if the stream goes on. */
    method KeepTail(part: Str)
      requires Valid() && (!stopped ==> NEWLINE !in part)
      modifies this
      ensures Valid() && stream == old(stream) + part
    {
      ghost var was := stream;
      stream := stream + part;
      if stopped {
        StoppedStays(Cfg(), was, calls, part);
        return;
      }
      TailGrows(Cfg(), was, buf, skipping, calls, part);
      if skipping {
        return;
      }
      buf := buf + part;
      if |buf| > max {
        buf := [];
        skipping := true;
        calls := calls + [Oversize];
      }
    }

    /** One turn of the loop: the line up to `nl`. */
    method TakeNext(chunk: Str, start: nat, nl: nat, ghost before: Str) returns (next: nat)
      requires Valid() && !stopped && start <= nl < |chunk| && chunk[nl] == NEWLINE && NEWLINE !in chunk[start..nl]
      requires stream == before + chunk[..start]
      modifies this
      ensures Valid() && next == nl + 1 && stream == before + chunk[..next]
    {
      Advance(before, chunk, start, nl);
      TakeLine(chunk[start..nl]);
      next := nl + 1;
    }

    /** The loop over the complete lines of a chunk; the rest begins at `start`. */
    method TakeLines(chunk: Str) returns (start: nat)
      requires Valid()
      modifies this
      ensures Valid() && start <= |chunk| && stream == old(stream) + chunk[..start]
      ensures !stopped ==> NEWLINE !in chunk[start..]
    {
      start := 0;
      assert stream == old(stream) + chunk[..0];
      while !stopped
        invariant Valid() && start <= |chunk| && stream == old(stream) + chunk[..start]
        decreases |chunk| - start
      {
        var nl := IndexOfNewline(chunk, start);
        if nl < 0 {
          return;
        }
        start := TakeNext(chunk, start, nl, old(stream));
      }
    }

    /** One chunk: every complete line, then the tail. */
    method Feed(chunk: Str)
      requires Valid()
      modifies this
      ensures Valid() && stream == old(stream) + chunk
      ensures calls == Owed(Cfg(), stream) && |buf| <= max
    {
      var start := TakeLines(chunk);
      Rest(old(stream), chunk, start);
      KeepTail(chunk[start..]);
    }
  }

  /** Every chunking of a stream makes the calls owed for it in one piece. */
  method FeedAll(max: nat, halts: iset<seq<Call>>, chunks: seq<Str>) returns (calls: seq<Call>)
    ensures calls == Owed(Config(max, halts), Flatten(chunks))
  {
    var sp := new Splitter(max, halts);
    var i := 0;
    while i < |chunks|
      invariant 0 <= i <= |chunks| && sp.Valid() && fresh(sp) && sp.max == max && sp.halts == halts
      invariant sp.stream == Flatten(chunks[..i])
    {
      FlattenPrefix(chunks, i);
      sp.Feed(chunks[i]);
      i := i + 1;
    }
    assert chunks[..i] == chunks;
    calls := sp.calls;
  }
}
