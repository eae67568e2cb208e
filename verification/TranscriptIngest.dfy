/**
 * Crash-safe ingest of one append-only transcript (src/host/hostIngest.ts): bytes become
 * lines, lines become bounded transactions, and the offset commits with its rows.
 */
module TranscriptIngest {
  import opened Prelude

  /** A line as read; what is stored for it (decoded, trimmed, redacted) depends on nothing else. */
  type Line = seq<byte>

  /** The lines that decode and trim to nothing: foreign code decides, so any set will do. */
  type Blanks = iset<Line>

  /** Which lines are left out: blank ones, and those longer than `cap` with their line feed. */
  datatype Rule = Rule(blanks: Blanks, cap: nat)

  // ---------------------------------------------------------------- what a file prefix says

  /** The first line feed in f[lo..hi), or hi. */
  function NextLf(f: seq<byte>, lo: nat, hi: nat): (n: nat)
    requires lo <= hi <= |f|
    ensures lo <= n <= hi
    decreases hi - lo
  {
    if lo == hi || f[lo] == LF then lo else NextLf(f, lo + 1, hi)
  }

  predicate NoLf(f: seq<byte>, lo: nat, hi: nat)
    requires lo <= hi <= |f|
  {
    forall k :: lo <= k < hi ==> f[k] != LF
  }

  /** `k` is where a line of `f` starts. */
  predicate LineStart(f: seq<byte>, k: nat) {
    k <= |f| && (k == 0 || f[k - 1] == LF)
  }

  /** The line f[lo..nl) if it counts. */
  function HeadLine(q: Rule, f: seq<byte>, lo: nat, nl: nat): seq<Line>
    requires lo <= nl <= |f|
  {
    if nl + 1 - lo > q.cap || f[lo..nl] in q.blanks then [] else [f[lo..nl]]
  }

  /** The complete lines of f[lo..hi) that count, in order. */
  function Kept(q: Rule, f: seq<byte>, lo: nat, hi: nat): seq<Line>
    requires lo <= hi <= |f|
    decreases hi - lo
  {
    var nl := NextLf(f, lo, hi);
    if nl == hi then []
    else HeadLine(q, f, lo, nl) + Kept(q, f, nl + 1, hi)
  }

  /** Raw bytes of lines. */
  function Size(lines: seq<Line>): nat {
    if lines == [] then 0 else Size(lines[..|lines| - 1]) + |lines[|lines| - 1]|
  }

  lemma SizeSnoc(lines: seq<Line>, l: Line)
    ensures Size(lines + [l]) == Size(lines) + |l|
  {
    assert (lines + [l])[..|lines|] == lines;
  }

  lemma {:induction false} SizeGrows(a: seq<Line>, b: seq<Line>)
    ensures Size(a + b) >= Size(a)
    decreases |b|
  {
    if b == [] {
      Units(a);
    } else {
      var init, l := b[..|b| - 1], b[|b| - 1];
      SizeGrows(a, init);
      assert a + b == (a + init) + [l];
      SizeSnoc(a + init, l);
    }
  }

  lemma {:induction false} NextLfSpec(f: seq<byte>, lo: nat, hi: nat)
    requires lo <= hi <= |f|
    ensures var n := NextLf(f, lo, hi); NoLf(f, lo, n) && (n < hi ==> f[n] == LF)
    decreases hi - lo
  {
    if lo < hi && f[lo] != LF {
      NextLfSpec(f, lo + 1, hi);
    }
  }

  lemma NextLfUnique(f: seq<byte>, lo: nat, hi: nat, n: nat)
    requires lo <= n <= hi <= |f| && NoLf(f, lo, n) && (n < hi ==> f[n] == LF)
    ensures NextLf(f, lo, hi) == n
  {
    NextLfSpec(f, lo, hi);
  }

  lemma KeptStep(q: Rule, f: seq<byte>, lo: nat, nl: nat, hi: nat)
    requires lo <= nl < hi <= |f| && f[nl] == LF && NoLf(f, lo, nl)
    ensures Kept(q, f, lo, hi) == HeadLine(q, f, lo, nl) + Kept(q, f, nl + 1, hi)
  {
    NextLfUnique(f, lo, hi, nl);
  }

  lemma {:induction false} KeptSplit(q: Rule, f: seq<byte>, lo: nat, mid: nat, hi: nat)
    requires lo <= mid <= hi <= |f|
    requires lo == mid || f[mid - 1] == LF
    ensures Kept(q, f, lo, hi) == Kept(q, f, lo, mid) + Kept(q, f, mid, hi)
    decreases mid - lo
  {
    if lo < mid {
      var nl := NextLf(f, lo, mid);
      NextLfSpec(f, lo, mid);
      assert nl < mid;
      KeptStep(q, f, lo, nl, mid);
      KeptStep(q, f, lo, nl, hi);
      KeptSplit(q, f, nl + 1, mid, hi);
      Assoc(HeadLine(q, f, lo, nl), Kept(q, f, nl + 1, mid), Kept(q, f, mid, hi));
    } else {
      Units(Kept(q, f, mid, hi));
    }
  }

  lemma NextLfGrows(f: seq<byte>, f': seq<byte>, lo: nat, hi: nat)
    requires lo <= hi <= |f| && f <= f'
    ensures NextLf(f', lo, hi) == NextLf(f, lo, hi)
  {
    NextLfSpec(f, lo, hi);
    assert forall k :: 0 <= k < |f| ==> f'[k] == f[k];
    NextLfUnique(f', lo, hi, NextLf(f, lo, hi));
  }

  lemma SliceGrows(f: seq<byte>, f': seq<byte>, lo: nat, hi: nat)
    requires lo <= hi <= |f| && f <= f'
    ensures f'[lo..hi] == f[lo..hi]
  {
  }

  lemma {:induction false} KeptGrows(q: Rule, f: seq<byte>, f': seq<byte>, lo: nat, hi: nat)
    requires lo <= hi <= |f| && f <= f'
    ensures Kept(q, f', lo, hi) == Kept(q, f, lo, hi)
    decreases hi - lo
  {
    var nl := NextLf(f, lo, hi);
    NextLfGrows(f, f', lo, hi);
    if nl < hi {
      SliceGrows(f, f', lo, nl);
      KeptGrows(q, f, f', nl + 1, hi);
    }
  }

  /** One more line, or none, at the end of a scan. */
  lemma KeptLast(q: Rule, f: seq<byte>, lo: nat, mid: nat, nl: nat)
    requires lo <= mid <= nl < |f| && f[nl] == LF && NoLf(f, mid, nl)
    requires lo == mid || f[mid - 1] == LF
    ensures Kept(q, f, lo, nl + 1) == Kept(q, f, lo, mid) + HeadLine(q, f, mid, nl)
  {
    KeptSplit(q, f, lo, mid, nl + 1);
    KeptStep(q, f, mid, nl, nl + 1);
    Units(HeadLine(q, f, mid, nl));
  }

  lemma LineStartGrows(f: seq<byte>, f': seq<byte>, k: nat)
    requires f <= f' && LineStart(f, k)
    ensures LineStart(f', k)
  {
    assert k > 0 ==> f'[k - 1] == f[k - 1];
  }

  /** A line that starts before a line start ends before it. */
  lemma LineEndsBefore(f: seq<byte>, k: nat, nl: nat, a: nat)
    requires k < a && LineStart(f, a) && k <= nl < |f| && NoLf(f, k, nl)
    ensures nl < a
  {
    assert f[a - 1] == LF;
  }

  // ---------------------------------------------------------------- lines handed over more than once

  /** `rows` is `all`, in order, with some items repeated later on. */
  ghost predicate Again(rows: seq<Line>, all: seq<Line>)
    decreases |rows|
  {
    if rows == [] then all == []
    else
      var front, x := rows[..|rows| - 1], rows[|rows| - 1];
      || (all != [] && all[|all| - 1] == x && Again(front, all[..|all| - 1]))
      || (x in front && Again(front, all))
  }

  lemma AgainSnoc(rows: seq<Line>, all: seq<Line>, x: Line)
    requires Again(rows, all)
    ensures Again(rows + [x], all + [x])
    ensures x in rows ==> Again(rows + [x], all)
  {
    assert (rows + [x])[..|rows|] == rows && (all + [x])[..|all|] == all;
  }

  lemma {:induction false} AgainSame(all: seq<Line>)
    ensures Again(all, all)
  {
    if all != [] {
      AgainSame(all[..|all| - 1]);
      AgainSnoc(all[..|all| - 1], all[..|all| - 1], all[|all| - 1]);
      assert all == all[..|all| - 1] + [all[|all| - 1]];
    }
  }

  lemma {:induction false} AgainMore(rows: seq<Line>, all: seq<Line>, more: seq<Line>)
    requires Again(rows, all)
    ensures Again(rows + more, all + more)
    decreases |more|
  {
    if more == [] {
      Units(rows);
      Units(all);
    } else {
      var init, x := more[..|more| - 1], more[|more| - 1];
      AgainMore(rows, all, init);
      AgainSnoc(rows + init, all + init, x);
      assert more == init + [x];
      Assoc(rows, init, [x]);
      Assoc(all, init, [x]);
    }
  }

  lemma {:induction false} AgainRepeat(rows: seq<Line>, all: seq<Line>, more: seq<Line>)
    requires Again(rows, all) && forall x :: x in more ==> x in all
    ensures Again(rows + more, all)
    decreases |more|
  {
    AgainMembers(rows, all);
    if more == [] {
      Units(rows);
    } else {
      var init, x := more[..|more| - 1], more[|more| - 1];
      AgainRepeat(rows, all, init);
      assert x in more && x in rows + init;
      AgainSnoc(rows + init, all, x);
      assert more == init + [x];
      Assoc(rows, init, [x]);
    }
  }

  lemma {:induction false} AgainMembers(rows: seq<Line>, all: seq<Line>)
    requires Again(rows, all)
    ensures forall x :: x in rows <==> x in all
    decreases |rows|
  {
    if rows != [] {
      var front, x := rows[..|rows| - 1], rows[|rows| - 1];
      assert rows == front + [x];
      if x in front && Again(front, all) {
        AgainMembers(front, all);
      } else {
        AgainMembers(front, all[..|all| - 1]);
        assert all == all[..|all| - 1] + [x];
      }
    }
  }

  // ---------------------------------------------------------------- where ingest stands

  /** What one ingest transaction may carry. */
  predicate ChunkOk(lines: seq<Line>, maxChunk: nat) {
    && 1 <= |lines| <= INGEST_TX_LINES
    && (Size(lines) <= maxChunk || |lines| == 1)
  }

  /** One read reaches from `b` to `e`, or they hold a single line. */
  predicate Spans(f: seq<byte>, maxRead: nat, b: nat, e: nat) {
    b < e <= |f| && (e - b <= maxRead || NoLf(f, b, e - 1))
  }

  /** The limits of a host. */
  datatype Limits = Limits(maxRead: nat, maxChunk: nat)

  /**
   * Between the saved offset `a` and the mark `b`: if the mark is ahead there is no line between them; if it
   * is behind, a transaction committed from `b` to `a` without the host knowing.
   */
  ghost predicate Due(q: Rule, m: Limits, f: seq<byte>, a: nat, b: nat) {
    && LineStart(f, a) && LineStart(f, b)
    && (a <= b ==> Kept(q, f, a, b) == [])
    && (b < a ==> ChunkOk(Kept(q, f, b, a), m.maxChunk) && Spans(f, m.maxRead, b, a))
  }

  /** `base` aside, `rows` are the lines up to `a`, some perhaps handed over again. */
  ghost predicate HandedOver(q: Rule, f: seq<byte>, base: seq<Line>, rows: seq<Line>, a: nat, exact: bool) {
    && a <= |f| && Again(rows, base + Kept(q, f, 0, a))
    && (exact ==> rows == base + Kept(q, f, 0, a))
  }

  ghost predicate Exact(q: Rule, m: Limits, f: seq<byte>, base: seq<Line>, rows: seq<Line>, a: nat, b: nat, unheard: nat) {
    && Due(q, m, f, a, b) && HandedOver(q, f, base, rows, a, unheard == 0)
    && (unheard == 0 ==> a <= b)
  }

  /** The rows came in these transactions, each within its bounds. */
  ghost predicate Bounded(rows: seq<Line>, chunks: seq<seq<Line>>, maxChunk: nat) {
    rows == Flatten(chunks) && forall i :: 0 <= i < |chunks| ==> ChunkOk(chunks[i], maxChunk)
  }

  lemma BoundedSnoc(rows: seq<Line>, chunks: seq<seq<Line>>, maxChunk: nat, lines: seq<Line>)
    requires Bounded(rows, chunks, maxChunk) && ChunkOk(lines, maxChunk)
    ensures Bounded(rows + lines, chunks + [lines], maxChunk)
  {
    FlattenSnoc(chunks, lines);
  }

  lemma DueGrows(q: Rule, m: Limits, f: seq<byte>, f': seq<byte>, a: nat, b: nat)
    requires f <= f' && Due(q, m, f, a, b)
    ensures Due(q, m, f', a, b)
  {
    LineStartGrows(f, f', a);
    LineStartGrows(f, f', b);
    if a <= b {
      KeptGrows(q, f, f', a, b);
    } else {
      KeptGrows(q, f, f', b, a);
      SpansGrows(f, f', m.maxRead, b, a);
    }
  }

  lemma SpansGrows(f: seq<byte>, f': seq<byte>, maxRead: nat, b: nat, e: nat)
    requires f <= f' && Spans(f, maxRead, b, e)
    ensures Spans(f', maxRead, b, e)
  {
    assert forall k :: 0 <= k < |f| ==> f'[k] == f[k];
  }

  lemma HandedOverGrows(q: Rule, f: seq<byte>, f': seq<byte>, base: seq<Line>, rows: seq<Line>, a: nat, exact: bool)
    requires f <= f' && HandedOver(q, f, base, rows, a, exact)
    ensures HandedOver(q, f', base, rows, a, exact)
  {
    KeptGrows(q, f, f', 0, a);
  }

  /** A transaction from the mark `b` to `end` moves the saved offset there, whatever it repeats. */
  lemma CommitHandsOver(q: Rule, m: Limits, f: seq<byte>, base: seq<Line>, rows: seq<Line>, a: nat, b: nat, end: nat, exact: bool)
    requires Due(q, m, f, a, b) && HandedOver(q, f, base, rows, a, exact) && (exact ==> a <= b)
    requires a <= end && b <= end && LineStart(f, end)
    ensures HandedOver(q, f, base, rows + Kept(q, f, b, end), end, exact)
  {
    var all, more := base + Kept(q, f, 0, a), Kept(q, f, a, end);
    KeptSplit(q, f, 0, a, end);
    Assoc(base, Kept(q, f, 0, a), more);
    if a <= b {
      KeptSplit(q, f, a, b, end);
      Units(Kept(q, f, b, end));
      AgainMore(rows, all, more);
    } else {
      var dup := Kept(q, f, b, a);
      KeptSplit(q, f, b, a, end);
      KeptSplit(q, f, 0, b, a);
      AgainRepeat(rows, all, dup);
      AgainMore(rows + dup, all, more);
      Assoc(rows, dup, more);
    }
  }

  /** ... so it keeps everything exact, heard of or not. */
  lemma StoreKeepsExact(q: Rule, m: Limits, f: seq<byte>, base: seq<Line>, rows: seq<Line>, a: nat, b: nat, end: nat, unheard: nat, lines: seq<Line>)
    requires Exact(q, m, f, base, rows, a, b, unheard) && ChunkOk(lines, m.maxChunk)
    requires a <= end && Spans(f, m.maxRead, b, end) && LineStart(f, end) && lines == Kept(q, f, b, end)
    ensures Exact(q, m, f, base, rows + lines, end, end, unheard)
    ensures Exact(q, m, f, base, rows + lines, end, b, unheard + 1)
  {
    CommitHandsOver(q, m, f, base, rows, a, b, end, unheard == 0);
  }

  /** Nothing to hand over means that nothing is owed. */
  lemma EmptyIsNotOwed(q: Rule, m: Limits, f: seq<byte>, a: nat, b: nat, end: nat)
    requires Due(q, m, f, a, b) && a <= end && b <= end && LineStart(f, end) && Kept(q, f, b, end) == []
    ensures a <= b && Due(q, m, f, a, end)
  {
    if b < a { KeptSplit(q, f, b, a, end); } else { KeptSplit(q, f, a, b, end); }
  }

  /** A full chunk reaches as far as the saved offset: what was committed before fitted. */
  lemma FullIsPast(q: Rule, m: Limits, f: seq<byte>, a: nat, b: nat, here: nat, nl: nat, l: Line)
    requires Due(q, m, f, a, b) && b <= here <= nl < |f| && LineStart(f, here) && f[nl] == LF && NoLf(f, here, nl)
    requires HeadLine(q, f, here, nl) == [l] && Kept(q, f, b, here) != []
    requires |Kept(q, f, b, here)| >= INGEST_TX_LINES || Size(Kept(q, f, b, here)) + |l| > m.maxChunk
    ensures a <= here
  {
    if here < a {
      LineEndsBefore(f, here, nl, a);
      var lines, rest := Kept(q, f, b, here), Kept(q, f, nl + 1, a);
      KeptSplit(q, f, b, here, a);
      KeptStep(q, f, here, nl, a);
      Assoc(lines, [l], rest);
      SizeSnoc(lines, l);
      SizeGrows(lines + [l], rest);
    }
  }

  /** A line over the cap is never owed. */
  lemma LongIsNotOwed(q: Rule, m: Limits, f: seq<byte>, a: nat, b: nat, nl: nat)
    requires Due(q, m, f, a, b) && b <= nl < |f| && f[nl] == LF && NoLf(f, b, nl)
    requires nl + 1 - b > q.cap >= m.maxRead
    ensures a <= b && Due(q, m, f, a, nl + 1)
  {
    if b < a {
      LineEndsBefore(f, b, nl, a);
      assert nl + 1 == a;
      KeptStep(q, f, b, nl, a);
    }
    KeptStep(q, f, b, nl, nl + 1);
    KeptSplit(q, f, a, b, nl + 1);
  }

  lemma NoLfNoLine(q: Rule, f: seq<byte>, lo: nat, hi: nat)
    requires lo <= hi <= |f| && NoLf(f, lo, hi)
    ensures Kept(q, f, lo, hi) == []
  {
    NextLfUnique(f, lo, hi, hi);
  }

  lemma MarkIsAhead(f: seq<byte>, a: nat, b: nat, hi: nat)
    requires LineStart(f, a) && a <= hi <= |f| && b <= hi && NoLf(f, b, hi)
    ensures a <= b
  {
  }

  /** With no line feed left between the mark and the end of `f`, all its lines have been handed over. */
  lemma PassIsExact(q: Rule, m: Limits, f: seq<byte>, f': seq<byte>, base: seq<Line>, rows: seq<Line>, a: nat, b: nat, exact: bool)
    requires f <= f' && a <= |f| && b <= |f| && NoLf(f', b, |f|)
    requires Due(q, m, f', a, b) && HandedOver(q, f', base, rows, a, exact)
    ensures HandedOver(q, f, base, rows, |f|, exact)
  {
    MarkIsAhead(f', a, b, |f|);
    NoLfNoLine(q, f', b, |f|);
    KeptSplit(q, f', a, b, |f|);
    KeptSplit(q, f', 0, a, |f|);
    Units(Kept(q, f', 0, a));
    KeptGrows(q, f, f', 0, |f|);
  }

  // ---------------------------------------------------------------- scanning a buffer

  /** Buffer.indexOf(LF, from), -1 when absent. */
  method IndexOfLf(buf: seq<byte>, from: nat) returns (i: int)
    requires from <= |buf|
    ensures i == -1 ==> NoLf(buf, from, |buf|)
    ensures i != -1 ==> from <= i < |buf| && buf[i] == LF && NoLf(buf, from, i)
  {
    var k := from;
    while k < |buf|
      invariant from <= k <= |buf| && NoLf(buf, from, k)
    {
      if buf[k] == LF {
        return k;
      }
      k := k + 1;
    }
    i := -1;
  }

  /** Buffer.lastIndexOf(LF), -1 when absent. */
  method LastIndexOfLf(buf: seq<byte>) returns (i: int)
    ensures i == -1 ==> NoLf(buf, 0, |buf|)
    ensures i != -1 ==> 0 <= i < |buf| && buf[i] == LF && NoLf(buf, i + 1, |buf|)
  {
    i := |buf| - 1;
    while i >= 0 && buf[i] != LF
      invariant -1 <= i < |buf| && NoLf(buf, i + 1, |buf|)
    {
      i := i - 1;
    }
  }

  /** The end of the line at `pos`; there is one up to the last line feed. */
  method LineEnd(buf: seq<byte>, pos: nat, lastNl: nat) returns (nl: nat)
    requires pos <= lastNl < |buf| && buf[lastNl] == LF
    ensures pos <= nl <= lastNl && buf[nl] == LF && NoLf(buf, pos, nl)
  {
    var i := IndexOfLf(buf, pos);
    assert i != -1;
    nl := i;
  }

  /** A buffer read from a file still shows what the grown file holds there. */
  lemma LineEndGrown(buf: seq<byte>, pos: nat, nl: nat, offset: nat, f: seq<byte>, f': seq<byte>)
    requires offset + |buf| <= |f| && f <= f' && buf == f[offset..offset + |buf|]
    requires pos <= nl < |buf| && buf[nl] == LF && NoLf(buf, pos, nl)
    ensures f'[offset + nl] == LF && NoLf(f', offset + pos, offset + nl)
    ensures buf[pos..nl] == f'[offset + pos..offset + nl]
  {
    assert forall k :: 0 <= k < |f| ==> f'[k] == f[k];
    forall k | offset + pos <= k < offset + nl
      ensures f'[k] == buf[k - offset]
    {
    }
  }

  /** The chunk being gathered: mark, scan position, and the lines between them with their raw size. */
  datatype Pending = Pending(at: nat, here: nat, lines: seq<Line>, bytes: nat)

  /** The pending chunk holds what lies between the mark and `here`, within the bounds of a transaction. */
  ghost predicate Loaded(q: Rule, m: Limits, f: seq<byte>, c: Pending) {
    && c.at <= c.here && LineStart(f, c.here)
    && c.lines == Kept(q, f, c.at, c.here) && c.bytes == Size(c.lines)
    && (c.lines == [] || ChunkOk(c.lines, m.maxChunk))
    && (c.at < c.here ==> Spans(f, m.maxRead, c.at, c.here))
  }

  lemma LoadedGrows(q: Rule, m: Limits, f: seq<byte>, f': seq<byte>, c: Pending)
    requires f <= f' && Loaded(q, m, f, c)
    ensures Loaded(q, m, f', c)
  {
    LineStartGrows(f, f', c.here);
    KeptGrows(q, f, f', c.at, c.here);
    if c.at < c.here { SpansGrows(f, f', m.maxRead, c.at, c.here); }
  }

  lemma EmptyIsLoaded(q: Rule, m: Limits, f: seq<byte>, k: nat)
    requires LineStart(f, k)
    ensures Loaded(q, m, f, Pending(k, k, [], 0))
  {
  }

  /** A buffer of one read, or of one longer line. */
  predicate BufferOk(q: Rule, m: Limits, buf: seq<byte>, lastNl: nat) {
    && lastNl < |buf| && buf[lastNl] == LF && |buf| <= q.cap
    && (|buf| <= m.maxRead || (NoLf(buf, 0, |buf| - 1) && lastNl == |buf| - 1))
  }

  /** `buf` is what the file holds from `offset` on. */
  predicate ReadAt(f: seq<byte>, offset: nat, buf: seq<byte>) {
    offset + |buf| <= |f| && buf == f[offset..offset + |buf|]
  }

  lemma ReadAtGrows(f: seq<byte>, f': seq<byte>, offset: nat, buf: seq<byte>)
    requires f <= f' && ReadAt(f, offset, buf)
    ensures ReadAt(f', offset, buf)
  {
  }

  /** A line within the buffer, added to the chunk, keeps it within one read. */
  lemma SpansBuffer(q: Rule, m: Limits, f: seq<byte>, offset: nat, buf: seq<byte>, lastNl: nat, at: nat, here: nat, nl: nat)
    requires BufferOk(q, m, buf, lastNl) && ReadAt(f, offset, buf)
    requires offset <= at <= here <= offset + nl && nl <= lastNl && LineStart(f, at) && LineStart(f, here)
    requires NoLf(buf, here - offset, nl)
    ensures Spans(f, m.maxRead, at, offset + nl + 1)
  {
    if |buf| > m.maxRead {
      assert forall k :: offset <= k < offset + |buf| ==> f[k] == buf[k - offset];
      assert at == offset;
    }
  }

  lemma ChunkGrows(lines: seq<Line>, l: Line, maxChunk: nat)
    requires lines == [] || (|lines| < INGEST_TX_LINES && Size(lines) + |l| <= maxChunk)
    ensures ChunkOk(lines + [l], maxChunk) && Size(lines + [l]) == Size(lines) + |l|
  {
    SizeSnoc(lines, l);
  }

  /** A line that does not count only moves the scan position ... */
  lemma BlankJoins(q: Rule, m: Limits, f: seq<byte>, c: Pending, c': Pending, nl: nat)
    requires Loaded(q, m, f, c) && c.here <= nl < |f| && f[nl] == LF && NoLf(f, c.here, nl)
    requires Spans(f, m.maxRead, c.at, nl + 1) && HeadLine(q, f, c.here, nl) == [] && c' == c.(here := nl + 1)
    ensures Loaded(q, m, f, c')
  {
    KeptLast(q, f, c.at, c.here, nl);
    Units(c.lines);
  }

  /** ... and one that does joins the chunk if there is room. */
  lemma LineJoins(q: Rule, m: Limits, f: seq<byte>, c: Pending, c': Pending, nl: nat, l: Line)
    requires Loaded(q, m, f, c) && c.here <= nl < |f| && f[nl] == LF && NoLf(f, c.here, nl)
    requires Spans(f, m.maxRead, c.at, nl + 1) && HeadLine(q, f, c.here, nl) == [l]
    requires c.lines == [] || (|c.lines| < INGEST_TX_LINES && c.bytes + |l| <= m.maxChunk)
    requires c' == Pending(c.at, nl + 1, c.lines + [l], c.bytes + |l|)
    ensures Loaded(q, m, f, c')
  {
    KeptLast(q, f, c.at, c.here, nl);
    ChunkGrows(c.lines, l, m.maxChunk);
  }

  /** The line at `here` as the file holds it; lines within a buffer are not too long. */
  lemma LineInBuffer(q: Rule, m: Limits, f: seq<byte>, offset: nat, buf: seq<byte>, lastNl: nat, here: nat, nl: nat)
    requires BufferOk(q, m, buf, lastNl) && ReadAt(f, offset, buf) && offset <= here
    requires here - offset <= nl <= lastNl && buf[nl] == LF && NoLf(buf, here - offset, nl)
    ensures f[offset + nl] == LF && NoLf(f, here, offset + nl)
    ensures HeadLine(q, f, here, offset + nl) == if buf[here - offset..nl] in q.blanks then [] else [buf[here - offset..nl]]
  {
    LineEndGrown(buf, here - offset, nl, offset, f, f);
  }

  /** The line of `buf` at the scan position joins the pending chunk if it counts. */
  method AddLine(ghost q: Rule, ghost m: Limits, t: Blanks, raw: Line, size: nat, c: Pending, ghost f: seq<byte>)
    returns (c': Pending)
    requires q.blanks == t && Loaded(q, m, f, c) && size == |raw| + 1
    requires c.here + |raw| < |f| && f[c.here + |raw|] == LF && NoLf(f, c.here, c.here + |raw|)
    requires Spans(f, m.maxRead, c.at, c.here + size)
    requires HeadLine(q, f, c.here, c.here + |raw|) == if raw in t then [] else [raw]
    requires c.lines == [] || (|c.lines| < INGEST_TX_LINES && c.bytes + |raw| <= m.maxChunk) || raw in t
    ensures c'.at == c.at && c'.here == c.here + size && Loaded(q, m, f, c')
  {
    if raw in t {
      c' := c.(here := c.here + size);
      BlankJoins(q, m, f, c, c', c.here + |raw|);
    } else {
      c' := Pending(c.at, c.here + size, c.lines + [raw], c.bytes + |raw|);
      LineJoins(q, m, f, c, c', c.here + |raw|, raw);
    }
  }

  /** The same for the line of a buffer that ends at `nl`. */
  method AddFrom(ghost q: Rule, ghost m: Limits, t: Blanks, buf: seq<byte>, offset: nat, nl: nat, c: Pending,
                 ghost f: seq<byte>, ghost lastNl: nat)
    returns (c': Pending)
    requires q.blanks == t && BufferOk(q, m, buf, lastNl) && ReadAt(f, offset, buf)
    requires Loaded(q, m, f, c) && offset <= c.at && LineStart(f, c.at)
    requires c.here - offset <= nl <= lastNl && buf[nl] == LF && NoLf(buf, c.here - offset, nl)
    requires c.lines == [] || (|c.lines| < INGEST_TX_LINES && c.bytes + (nl + offset - c.here) <= m.maxChunk) || buf[c.here - offset..nl] in t
    ensures c'.at == c.at && c'.here == offset + nl + 1 && Loaded(q, m, f, c')
  {
    LineInBuffer(q, m, f, offset, buf, lastNl, c.here, nl);
    SpansBuffer(q, m, f, offset, buf, lastNl, c.at, c.here, nl);
    c' := AddLine(q, m, t, buf[c.here - offset..nl], nl + offset + 1 - c.here, c, f);
  }

  /** A read from the mark reaches the saved offset. */
  lemma ReadReaches(q: Rule, m: Limits, f: seq<byte>, a: nat, b: nat, buf: seq<byte>, size: nat)
    requires Due(q, m, f, a, b) && ReadAt(f, b, buf) && a <= size && |buf| == Min(size - b, m.maxRead) && b < size
    ensures b < a && a - b <= m.maxRead ==> a <= b + |buf| && buf[a - 1 - b] == LF
    ensures b < a && NoLf(buf, 0, |buf|) ==> NoLf(f, b, a - 1) && a - b > m.maxRead
  {
  }

  // ---------------------------------------------------------------- the ingest of one path

  /** An offset together with the inode it belongs to. */
  datatype FileMark = FileMark(offset: nat, ino: nat)

  datatype Outcome = Complete | Stopped | Failed

  class HostIngest {
    const t: Blanks
    const maxRead: nat
    const maxLine: nat
    const maxChunk: nat

    // on disk
    var file: seq<byte>
    var ino: nat
    // in the database: what committed transactions handed to the store, and the offset of the path
    var rows: seq<Line>
    var saved: Option<FileMark>
    // in memory, lost in a crash
    var done: Option<FileMark>
    var stopped: bool
    // history
    ghost var base: seq<Line>          // rows handed over before the present file replaced its predecessor
    ghost var chunks: seq<seq<Line>>   // every committed transaction
    ghost var unheard: nat             // commits of this file whose answer was lost
    ghost var trouble: nat             // chunks the store refused, or whose answer was lost
    ghost var asks: nat                // calls of stop()

    static function From(mark: Option<FileMark>, ino: nat): nat {
      if mark.Some? && mark.value.ino == ino then mark.value.offset else 0
    }

    /** A line is left out if it is blank, or longer than both one read and the line cap. */
    ghost function Q(): Rule { Rule(t, Max(maxRead, maxLine)) }

    ghost function M(): Limits { Limits(maxRead, maxChunk) }

    /**
     * What was handed over is exactly the lines up to the saved offset that count, in order, once each unless
     * an answer was lost, and came in transactions within their bounds.
     */
    ghost predicate Valid()
      reads this
    {
      && 0 < maxRead
      && Exact(Q(), M(), file, base, rows, From(saved, ino), From(done, ino), unheard)
      && Bounded(rows, chunks, maxChunk)
    }

    constructor (t: Blanks, maxRead: nat, maxLine: nat, maxChunk: nat, file: seq<byte>, ino: nat)
      requires 0 < maxRead
      ensures Valid() && rows == [] && base == [] && chunks == [] && unheard == 0
      ensures this.file == file && this.ino == ino
    {
      this.t, this.maxRead, this.maxLine, this.maxChunk := t, maxRead, maxLine, maxChunk;
      this.file, this.ino := file, ino;
      rows, saved, done, stopped := [], None, None, false;
      base, chunks, unheard, trouble, asks := [], [], 0, 0, 0;
    }

    // ----- the world outside, at any await

    method Grow(more: seq<byte>)
      requires Valid()
      modifies this`file
      ensures Valid() && file == old(file) + more
    {
      DueGrows(Q(), M(), file, file + more, From(saved, ino), From(done, ino));
      HandedOverGrows(Q(), file, file + more, base, rows, From(saved, ino), unheard == 0);
      file := file + more;
    }

    /** Writers append and stop() may be called while an await is pending. */
    method Await()
      requires Valid()
      modifies this`file, this`stopped, this`asks
      ensures Valid() && old(file) <= file && old(asks) <= asks
      ensures stopped <==> old(stopped) || asks > old(asks)
    {
      var more: seq<byte> := *;
      Grow(more);
      var asked: bool := *;
      if asked {
        stopped := true;
        asks := asks + 1;
      }
    }

    /** The process dies at any point and a new one loads the committed offsets. */
    method Restart()
      requires Valid()
      modifies this`done, this`stopped
      ensures Valid() && done == saved && !stopped
    {
      done, stopped := saved, false;
    }

    /** The transcript is replaced by a new file: it is handed over from its start, after what came before. */
    method Replace(contents: seq<byte>, newIno: nat)
      requires Valid()
      requires (saved.Some? ==> saved.value.ino != newIno) && (done.Some? ==> done.value.ino != newIno)
      modifies this
      ensures Valid() && file == contents && ino == newIno && base == rows == old(rows) && chunks == old(chunks)
    {
      file, ino := contents, newIno;
      base, unheard := rows, 0;
      Units(base);
      AgainSame(base);
    }

    // ----- the code

    /** findNewline: the first line feed of file[from..size), read in steps, or -1. */
    method FindNewline(from: nat, size: nat) returns (nl: int)
      requires 0 < maxRead && from <= size <= |file|
      ensures nl == -1 ==> NoLf(file, from, size)
      ensures nl != -1 ==> from <= nl < size && file[nl] == LF && NoLf(file, from, nl)
    {
      var at := from;
      while at < size
        invariant from <= at && NoLf(file, from, Min(at, size))
      {
        var buf := file[at..at + Min(maxRead, size - at)];
        var i := IndexOfLf(buf, 0);
        if i != -1 {
          assert forall k :: at <= k < at + i ==> file[k] == buf[k - at];
          return at + i;
        }
        assert forall k :: at <= k < at + |buf| ==> file[k] == buf[k - at];
        at := at + maxRead;
      }
      nl := -1;
    }

    /**
     * ingestBatch with saveOffset as its last statement: all of it commits, or none. The answer to a commit
     * may be lost, and then the host takes it for a failure.
     */
    method Commit(lines: seq<Line>, end: nat) returns (ok: bool)
      requires Valid() && ChunkOk(lines, maxChunk)
      requires From(saved, ino) <= end && Spans(file, maxRead, From(done, ino), end) && LineStart(file, end)
      requires lines == Kept(Q(), file, From(done, ino), end)
      modifies this`rows, this`saved, this`done, this`chunks, this`unheard, this`trouble
      ensures Valid() && From(done, ino) == if ok then end else old(From(done, ino))
      ensures ok || unheard > old(unheard) ==> From(saved, ino) == end && rows == old(rows) + lines && chunks == old(chunks) + [lines]
      ensures ok ==> unheard == old(unheard)
      ensures trouble == if ok then old(trouble) else old(trouble) + 1
      ensures !ok && unheard <= old(unheard) ==> rows == old(rows) && saved == old(saved) && chunks == old(chunks)
    {
      ok := false;
      var committed: bool := *;
      if committed {
        ok := *;
        Store(lines, end, ok);
      }
      if !ok {
        trouble := trouble + 1;
      }
    }

    /** The transaction itself; `answered` tells whether the host hears of it. */
    method Store(lines: seq<Line>, end: nat, answered: bool)
      requires Valid() && ChunkOk(lines, maxChunk)
      requires From(saved, ino) <= end && Spans(file, maxRead, From(done, ino), end) && LineStart(file, end)
      requires lines == Kept(Q(), file, From(done, ino), end)
      modifies this`rows, this`saved, this`done, this`chunks, this`unheard
      ensures Valid() && From(done, ino) == if answered then end else old(From(done, ino))
      ensures From(saved, ino) == end && rows == old(rows) + lines && chunks == old(chunks) + [lines]
      ensures unheard == if answered then old(unheard) else old(unheard) + 1
    {
      StoreKeepsExact(Q(), M(), file, base, rows, From(saved, ino), From(done, ino), end, unheard, lines);
      BoundedSnoc(rows, chunks, maxChunk, lines);
      rows := rows + lines;
      saved := Some(FileMark(end, ino));
      chunks := chunks + [lines];
      if answered {
        done := Some(FileMark(end, ino));
      } else {
        unheard := unheard + 1;
      }
    }

    /** readFrom's flush: an empty chunk only moves the mark in memory. */
    method Flush(lines: seq<Line>, end: nat) returns (ok: bool)
      requires Valid() && From(saved, ino) <= end && From(done, ino) <= end && LineStart(file, end)
      requires lines == Kept(Q(), file, From(done, ino), end)
      requires lines != [] ==> ChunkOk(lines, maxChunk) && Spans(file, maxRead, From(done, ino), end)
      modifies this`rows, this`saved, this`done, this`chunks, this`file, this`stopped, this`unheard, this`trouble, this`asks
      ensures Valid() && old(file) <= file && From(done, ino) == if ok then end else old(From(done, ino))
      ensures From(saved, ino) <= end
      ensures ok ==> rows == old(rows) + lines && unheard == old(unheard)
      ensures ok ==> chunks == if lines != [] then old(chunks) + [lines] else old(chunks)
      ensures ok ==> if lines != [] then From(saved, ino) == end else saved == old(saved)
      ensures !ok ==> if unheard > old(unheard) then rows == old(rows) + lines && From(saved, ino) == end else rows == old(rows) && saved == old(saved)
      ensures trouble >= old(trouble) && (!ok <==> trouble > old(trouble))
      ensures asks >= old(asks) && (stopped <==> old(stopped) || asks > old(asks))
    {
      ok := true;
      if lines != [] {
        ok := Commit(lines, end);
        Await();
      } else {
        PassBlanks(end);
        Units(rows);
      }
    }

    /** Nothing to send: only the mark moves. */
    method PassBlanks(end: nat)
      requires Valid() && From(saved, ino) <= end && From(done, ino) <= end && LineStart(file, end)
      requires Kept(Q(), file, From(done, ino), end) == []
      modifies this`done
      ensures Valid() && From(done, ino) == end
    {
      EmptyIsNotOwed(Q(), M(), file, From(saved, ino), From(done, ino), end);
      done := Some(FileMark(end, ino));
    }

    /** A full chunk goes out before the line `raw` that ends at `nl` joins a new one. */
    method MakeRoom(c: Pending, raw: Line, ghost nl: nat) returns (c': Pending, failed: bool)
      requires Valid() && Loaded(Q(), M(), file, c) && From(done, ino) == c.at
      requires nl == c.here + |raw| < |file| && file[nl] == LF && NoLf(file, c.here, nl)
      requires HeadLine(Q(), file, c.here, nl) == [raw]
      modifies this`rows, this`saved, this`done, this`chunks, this`file, this`stopped, this`unheard, this`trouble, this`asks
      ensures Valid() && old(file) <= file && c.at <= c'.at <= c'.here == c.here && From(done, ino) == c'.at
      ensures From(saved, ino) <= Max(old(From(saved, ino)), c.here)
      ensures if failed then c' == c else Loaded(Q(), M(), file, c')
      ensures !failed ==> c'.lines == [] || (|c'.lines| < INGEST_TX_LINES && c'.bytes + |raw| <= maxChunk)
      ensures trouble >= old(trouble) && (failed <==> trouble > old(trouble))
      ensures asks >= old(asks) && (stopped <==> old(stopped) || asks > old(asks))
    {
      c', failed := c, false;
      if c.lines != [] && (|c.lines| >= INGEST_TX_LINES || c.bytes + |raw| > maxChunk) {
        FullIsPast(Q(), M(), file, From(saved, ino), c.at, c.here, nl, raw);
        failed := SendChunk(c);
        if !failed {
          c' := Pending(c.here, c.here, [], 0);
          EmptyIsLoaded(Q(), M(), file, c.here);
        }
      }
    }

    method SendChunk(c: Pending) returns (failed: bool)
      requires Valid() && Loaded(Q(), M(), file, c) && From(done, ino) == c.at && From(saved, ino) <= c.here
      modifies this`rows, this`saved, this`done, this`chunks, this`file, this`stopped, this`unheard, this`trouble, this`asks
      ensures Valid() && old(file) <= file && From(done, ino) == (if failed then c.at else c.here)
      ensures From(saved, ino) <= c.here && LineStart(file, c.here)
      ensures trouble >= old(trouble) && (failed <==> trouble > old(trouble))
      ensures asks >= old(asks) && (stopped <==> old(stopped) || asks > old(asks))
    {
      ghost var f := file;
      var ok := Flush(c.lines, c.here);
      LineStartGrows(f, file, c.here);
      failed := !ok;
    }

    /** One turn of readFrom's line loop. */
    method Turn(buf: seq<byte>, lastNl: nat, offset: nat, c: Pending) returns (c': Pending, failed: bool)
      requires Valid() && Loaded(Q(), M(), file, c) && From(done, ino) == c.at
      requires BufferOk(Q(), M(), buf, lastNl) && ReadAt(file, offset, buf)
      requires offset <= c.at && c.here <= offset + lastNl && From(saved, ino) <= offset + lastNl + 1
      modifies this`rows, this`saved, this`done, this`chunks, this`file, this`stopped, this`unheard, this`trouble, this`asks
      ensures Valid() && old(file) <= file && From(done, ino) == c'.at && c.at <= c'.at <= c'.here
      ensures c.here <= c'.here <= offset + lastNl + 1 && From(saved, ino) <= offset + lastNl + 1
      ensures !failed ==> Loaded(Q(), M(), file, c') && c.here < c'.here
      ensures trouble >= old(trouble) && (failed <==> trouble > old(trouble))
      ensures asks >= old(asks) && (stopped <==> old(stopped) || asks > old(asks))
    {
      var pos := c.here - offset;
      var nl := LineEnd(buf, pos, lastNl);
      if buf[pos..nl] in t {
        failed := false;
        c' := AddFrom(Q(), M(), t, buf, offset, nl, c, file, lastNl);
      } else {
        c', failed := TakeLine(buf, lastNl, offset, c, nl);
      }
    }

    /** A line that is not blank: it may need a new chunk. */
    method TakeLine(buf: seq<byte>, lastNl: nat, offset: nat, c: Pending, nl: nat) returns (c': Pending, failed: bool)
      requires Valid() && Loaded(Q(), M(), file, c) && From(done, ino) == c.at
      requires BufferOk(Q(), M(), buf, lastNl) && ReadAt(file, offset, buf)
      requires offset <= c.at && c.here <= offset + nl && nl <= lastNl && From(saved, ino) <= offset + lastNl + 1
      requires buf[nl] == LF && NoLf(buf, c.here - offset, nl) && buf[c.here - offset..nl] !in t
      modifies this`rows, this`saved, this`done, this`chunks, this`file, this`stopped, this`unheard, this`trouble, this`asks
      ensures Valid() && old(file) <= file && From(done, ino) == c'.at && c.at <= c'.at
      ensures c'.here == (if failed then c.here else offset + nl + 1) && From(saved, ino) <= offset + lastNl + 1
      ensures !failed ==> Loaded(Q(), M(), file, c')
      ensures failed ==> c' == c
      ensures trouble >= old(trouble) && (failed <==> trouble > old(trouble))
      ensures asks >= old(asks) && (stopped <==> old(stopped) || asks > old(asks))
    {
      var raw := buf[c.here - offset..nl];
      LineInBuffer(Q(), M(), file, offset, buf, lastNl, c.here, nl);
      ghost var f := file;
      c', failed := MakeRoom(c, raw, offset + nl);
      if !failed {
        ReadAtGrows(f, file, offset, buf);
        c' := AddFrom(Q(), M(), t, buf, offset, nl, c', file, lastNl);
      }
    }

    /** The over-long line at `from` is passed over, in memory only. */
    method SkipLine(from: nat, nl: nat)
      requires Valid() && From(done, ino) == from <= nl < |file| && file[nl] == LF && NoLf(file, from, nl)
      requires nl + 1 - from > maxLine && nl + 1 - from > maxRead
      modifies this`done
      ensures Valid() && From(done, ino) == nl + 1 && From(saved, ino) <= from
    {
      LongIsNotOwed(Q(), M(), file, From(saved, ino), from, nl);
      done := Some(FileMark(nl + 1, ino));
    }

    /** readFrom. Unless a chunk failed or stop() came, it gets on or there is no complete line left. */
    method ReadFrom(offset: nat, size: nat) returns (next: nat, failed: bool)
      requires Valid() && From(done, ino) == offset < size <= |file| && From(saved, ino) <= size
      modifies this`rows, this`saved, this`done, this`chunks, this`file, this`stopped, this`unheard, this`trouble, this`asks
      ensures Valid() && old(file) <= file
      ensures From(done, ino) == next && offset <= next <= size && From(saved, ino) <= size
      ensures !failed && !stopped && next == offset ==> NoLf(file, offset, size)
      ensures trouble >= old(trouble) && (failed <==> trouble > old(trouble))
      ensures asks >= old(asks) && (stopped <==> old(stopped) || asks > old(asks))
    {
      var buf := file[offset..offset + Min(size - offset, maxRead)];
      ReadReaches(Q(), M(), file, From(saved, ino), offset, buf, size);
      var lastNl := LastIndexOfLf(buf);
      if lastNl == -1 {
        BareRead(file, offset, buf);
        next, failed := ReadLong(offset, size, |buf|);
      } else {
        next, failed := IngestBuffer(buf, lastNl, offset);
      }
    }

    /** readFrom when the first `got` bytes hold no line feed: one longer line, if it is complete. */
    method ReadLong(offset: nat, size: nat, got: nat) returns (next: nat, failed: bool)
      requires Valid() && From(done, ino) == offset < size <= |file| && From(saved, ino) <= size
      requires got == Min(size - offset, maxRead) && NoLf(file, offset, offset + got)
      modifies this`rows, this`saved, this`done, this`chunks, this`file, this`stopped, this`unheard, this`trouble, this`asks
      ensures Valid() && old(file) <= file
      ensures From(done, ino) == next && offset <= next <= size && From(saved, ino) <= size
      ensures !failed && !stopped && next == offset ==> NoLf(file, offset, size)
      ensures trouble >= old(trouble) && (failed <==> trouble > old(trouble))
      ensures asks >= old(asks) && (stopped <==> old(stopped) || asks > old(asks))
    {
      if offset + got >= size {
        return offset, false;
      }
      var nl := FindNewline(offset + got, size);
      if nl == -1 {
        return offset, false;
      }
      next, failed := TakeLong(offset, nl);
    }

    /** A complete line longer than one read: skipped if it is over the cap, otherwise read whole. */
    method TakeLong(offset: nat, nl: nat) returns (next: nat, failed: bool)
      requires Valid() && From(done, ino) == offset <= nl < |file| && file[nl] == LF && NoLf(file, offset, nl)
      requires nl + 1 - offset > maxRead
      modifies this`rows, this`saved, this`done, this`chunks, this`file, this`stopped, this`unheard, this`trouble, this`asks
      ensures Valid() && old(file) <= file
      ensures From(done, ino) == next && offset <= next <= nl + 1 && From(saved, ino) <= nl + 1
      ensures !failed && !stopped ==> next > offset
      ensures trouble >= old(trouble) && (failed <==> trouble > old(trouble))
      ensures asks >= old(asks) && (stopped <==> old(stopped) || asks > old(asks))
    {
      var len := nl + 1 - offset;
      if len > maxLine {
        SkipLine(offset, nl);
        return nl + 1, false;
      }
      var buf := file[offset..offset + len];
      LongBuffer(Q(), M(), file, offset, nl, buf);
      OneLineReaches(Q(), M(), file, From(saved, ino), offset, nl);
      next, failed := IngestBuffer(buf, len - 1, offset);
    }

    /** The line loop of readFrom over a buffer whose last line feed is at `lastNl`; the last chunk stays pending. */
    method ScanBuffer(buf: seq<byte>, lastNl: nat, offset: nat) returns (c: Pending, failed: bool)
      requires Valid() && From(done, ino) == offset && BufferOk(Q(), M(), buf, lastNl) && ReadAt(file, offset, buf)
      requires From(saved, ino) <= offset + lastNl + 1
      modifies this`rows, this`saved, this`done, this`chunks, this`file, this`stopped, this`unheard, this`trouble, this`asks
      ensures Valid() && old(file) <= file && From(done, ino) == c.at
      ensures offset <= c.at <= c.here <= offset + lastNl + 1 && From(saved, ino) <= offset + lastNl + 1
      ensures !failed ==> Loaded(Q(), M(), file, c)
      ensures !failed && !stopped ==> c.here == offset + lastNl + 1
      ensures trouble >= old(trouble) && (failed <==> trouble > old(trouble))
      ensures asks >= old(asks) && (stopped <==> old(stopped) || asks > old(asks))
    {
      c, failed := Pending(offset, offset, [], 0), false;
      EmptyIsLoaded(Q(), M(), file, offset);
      while c.here <= offset + lastNl && !stopped && !failed
        invariant offset <= c.at <= c.here <= offset + lastNl + 1 && From(saved, ino) <= offset + lastNl + 1
        invariant Valid() && old(file) <= file && From(done, ino) == c.at && ReadAt(file, offset, buf)
        invariant !failed ==> Loaded(Q(), M(), file, c)
        invariant trouble >= old(trouble) && (failed <==> trouble > old(trouble))
        invariant asks >= old(asks) && (stopped <==> old(stopped) || asks > old(asks))
        decreases !failed, offset + lastNl + 1 - c.here
      {
        ghost var f := file;
        c, failed := Turn(buf, lastNl, offset, c);
        ReadAtGrows(f, file, offset, buf);
      }
    }

    method IngestBuffer(buf: seq<byte>, lastNl: nat, offset: nat) returns (at: nat, failed: bool)
      requires Valid() && From(done, ino) == offset && BufferOk(Q(), M(), buf, lastNl) && ReadAt(file, offset, buf)
      requires From(saved, ino) <= offset + lastNl + 1
      modifies this`rows, this`saved, this`done, this`chunks, this`file, this`stopped, this`unheard, this`trouble, this`asks
      ensures Valid() && old(file) <= file
      ensures From(done, ino) == at && offset <= at <= offset + lastNl + 1 && From(saved, ino) <= offset + lastNl + 1
      ensures !failed && !stopped ==> at > offset
      ensures trouble >= old(trouble) && (failed <==> trouble > old(trouble))
      ensures asks >= old(asks) && (stopped <==> old(stopped) || asks > old(asks))
    {
      var c;
      c, failed := ScanBuffer(buf, lastNl, offset);
      at := c.at;
      if !failed && c.here == offset + lastNl + 1 {
        failed := SendChunk(c);
        at := if failed then c.at else c.here;
      }
    }

    /**
     * process: reads on until no complete line is left, a chunk fails, or stop() comes, and for no other reason
     * short of the end. A pass that completes has handed over every line that counts of the file it found.
     */
    method Process() returns (r: Outcome)
      requires Valid()
      modifies this`rows, this`saved, this`done, this`chunks, this`file, this`stopped, this`unheard, this`trouble, this`asks
      ensures Valid() && old(file) <= file
      ensures r == Complete ==> From(done, ino) <= |old(file)| && NoLf(file, From(done, ino), |old(file)|)
      ensures r == Complete ==> HandedOver(Q(), old(file), base, rows, |old(file)|, unheard == 0)
      ensures trouble == old(trouble) && asks == old(asks) && !old(stopped) ==> r == Complete
    {
      if stopped {
        return Stopped;
      }
      var size := |file|;
      // A mark of another inode, or past the end, starts over.
      var offset := From(done, ino);
      while offset < size && !stopped
        invariant Valid() && old(file) <= file
        invariant From(done, ino) == offset <= size == |old(file)| && From(saved, ino) <= size
        invariant trouble == old(trouble) && asks >= old(asks) && (stopped <==> asks > old(asks))
        decreases size - offset
      {
        var next, failed := ReadFrom(offset, size);
        if failed {
          return Failed;
        }
        if next == offset {
          if stopped {
            return Stopped;
          }
          PassIsExact(Q(), M(), old(file), file, base, rows, From(saved, ino), offset, unheard == 0);
          return Complete;
        }
        offset := next;
      }
      if offset < size {
        return Stopped;
      }
      PassIsExact(Q(), M(), old(file), file, base, rows, From(saved, ino), offset, unheard == 0);
      r := Complete;
    }

    /**
     * Any history: passes that complete, fail or are stopped anywhere, lost answers, writers, and crashes,
     * in any order. What was handed over stays exact throughout, and within the bounds of its chunks.
     */
    method Lifetime(steps: nat)
      requires Valid()
      modifies this`rows, this`saved, this`done, this`chunks, this`file, this`stopped, this`unheard, this`trouble, this`asks
      ensures Valid() && old(file) <= file
    {
      for i := 0 to steps
        invariant Valid() && old(file) <= file
      {
        if * {
          var r := Process();
        } else if * {
          Await();
        } else {
          Restart();
        }
      }
    }

    /** If every complete line fits, and every answer arrived, the rows are all the lines, once each. */
    lemma ExactWhenLinesFit()
      requires Valid() && unheard == 0
      requires forall s :: !OverCap(file, Q().cap, s)
      ensures rows == base + Kept(Rule(t, |file|), file, 0, From(saved, ino))
      ensures rows == base + Kept(Rule(t, |file|), file, 0, From(done, ino))
    {
      KeptWhenFit(Q(), file, 0, From(saved, ino));
      KeptWhenFit(Q(), file, 0, From(done, ino));
      KeptSplit(Q(), file, 0, From(saved, ino), From(done, ino));
      Units(Kept(Q(), file, 0, From(saved, ino)));
    }
  }

  lemma BareRead(f: seq<byte>, offset: nat, buf: seq<byte>)
    requires ReadAt(f, offset, buf) && NoLf(buf, 0, |buf|)
    ensures NoLf(f, offset, offset + |buf|)
  {
    assert forall k :: offset <= k < offset + |buf| ==> f[k] == buf[k - offset];
  }

  lemma LongBuffer(q: Rule, m: Limits, f: seq<byte>, offset: nat, nl: nat, buf: seq<byte>)
    requires offset <= nl < |f| && f[nl] == LF && NoLf(f, offset, nl) && buf == f[offset..nl + 1] && |buf| <= q.cap
    ensures BufferOk(q, m, buf, nl - offset) && ReadAt(f, offset, buf)
  {
  }

  /** The line at the mark reaches the saved offset if no single read does. */
  lemma OneLineReaches(q: Rule, m: Limits, f: seq<byte>, a: nat, b: nat, nl: nat)
    requires Due(q, m, f, a, b) && b <= nl < |f| && f[nl] == LF && NoLf(f, b, nl) && nl + 1 - b > m.maxRead
    ensures a <= nl + 1
  {
    if b < a { LineEndsBefore(f, b, nl, a); }
  }

  /** A complete line longer than `cap` starts at `s`. */
  predicate OverCap(f: seq<byte>, cap: nat, s: nat) {
    LineStart(f, s) && NextLf(f, s, |f|) < |f| && NextLf(f, s, |f|) + 1 - s > cap
  }

  /** Without such lines the cap leaves nothing out. */
  lemma {:induction false} KeptWhenFit(q: Rule, f: seq<byte>, lo: nat, hi: nat)
    requires LineStart(f, lo) && lo <= hi <= |f| && forall s :: !OverCap(f, q.cap, s)
    ensures Kept(q, f, lo, hi) == Kept(Rule(q.blanks, |f|), f, lo, hi)
    decreases hi - lo
  {
    var nl := NextLf(f, lo, hi);
    NextLfSpec(f, lo, hi);
    if nl < hi {
      NextLfUnique(f, lo, |f|, nl);
      assert !OverCap(f, q.cap, lo);
      KeptWhenFit(q, f, nl + 1, hi);
    }
  }

  /** The lines put together again. */
  function Unlines(ls: seq<Line>): seq<byte> {
    if ls == [] then [] else ls[0] + [LF] + Unlines(ls[1..])
  }

  lemma UnlinesCons(l: Line, ls: seq<Line>)
    ensures Unlines([l] + ls) == l + [LF] + Unlines(ls)
  {
    assert ([l] + ls)[1..] == ls;
  }

  lemma Cut(f: seq<byte>, lo: nat, nl: nat, hi: nat)
    requires lo <= nl < hi <= |f| && f[nl] == LF
    ensures f[lo..hi] == f[lo..nl] + [LF] + f[nl + 1..hi]
  {
  }

  /** With nothing left out, the lines are the bytes: no line is lost, repeated, split or moved. */
  lemma {:induction false} LinesRoundTrip(f: seq<byte>, lo: nat, hi: nat)
    requires lo <= hi <= |f| && (lo == hi || f[hi - 1] == LF)
    ensures Unlines(Kept(Rule(iset{}, |f|), f, lo, hi)) == f[lo..hi]
    decreases hi - lo
  {
    if lo < hi {
      var q, nl := Rule(iset{}, |f|), NextLf(f, lo, hi);
      NextLfSpec(f, lo, hi);
      assert nl < hi;
      KeptStep(q, f, lo, nl, hi);
      LinesRoundTrip(f, nl + 1, hi);
      UnlinesCons(f[lo..nl], Kept(q, f, nl + 1, hi));
      Cut(f, lo, nl, hi);
    }
  }
}
