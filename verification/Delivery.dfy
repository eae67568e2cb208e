/**
 * What the store makes of the lines that ingest hands over (src/host/hostIngest.ts, src/main/db.ts):
 * chunk by chunk, one event per key, and none again for a transcript that is read anew.
 */
module Delivery {
  import opened Prelude
  import opened TranscriptIngest
  import R = Rollups

  /** The lines as the store sees them; parsing is foreign code. */
  function Inputs(parse: Line -> R.Input, lines: seq<Line>): seq<R.Input> {
    if lines == [] then [] else Inputs(parse, lines[..|lines| - 1]) + [parse(lines[|lines| - 1])]
  }

  /** The tables after one transaction per chunk. */
  function Fed(t: R.Tables, w: string, sid: string, parse: Line -> R.Input, chunks: seq<seq<Line>>): R.Tables {
    if chunks == [] then t
    else R.IngestLines(Fed(t, w, sid, parse, chunks[..|chunks| - 1]), w, sid, Inputs(parse, chunks[|chunks| - 1])).0
  }

  lemma {:induction false} InputsAppend(parse: Line -> R.Input, a: seq<Line>, b: seq<Line>)
    ensures Inputs(parse, a + b) == Inputs(parse, a) + Inputs(parse, b)
    decreases |b|
  {
    if b == [] {
      Units(a);
      Units(Inputs(parse, a));
    } else {
      var init, l := b[..|b| - 1], b[|b| - 1];
      InputsAppend(parse, a, init);
      assert (a + b)[..|a + b| - 1] == a + init;
      Assoc(Inputs(parse, a), Inputs(parse, init), [parse(l)]);
    }
  }

  lemma {:induction false} InputsMember(parse: Line -> R.Input, lines: seq<Line>)
    ensures |Inputs(parse, lines)| == |lines| && forall i :: 0 <= i < |lines| ==> Inputs(parse, lines)[i] == parse(lines[i])
  {
    if lines != [] { InputsMember(parse, lines[..|lines| - 1]); }
  }

  /** The cut into chunks makes no difference to the tables. */
  lemma {:induction false} ChunksAreOneBatch(t: R.Tables, w: string, sid: string, parse: Line -> R.Input, chunks: seq<seq<Line>>)
    ensures Fed(t, w, sid, parse, chunks) == R.IngestLines(t, w, sid, Inputs(parse, Flatten(chunks))).0
    decreases |chunks|
  {
    if chunks != [] {
      var init, last := chunks[..|chunks| - 1], chunks[|chunks| - 1];
      ChunksAreOneBatch(t, w, sid, parse, init);
      assert chunks == init + [last];
      FlattenSnoc(init, last);
      InputsAppend(parse, Flatten(init), last);
      R.IngestLinesAppend(t, w, sid, Inputs(parse, Flatten(init)), Inputs(parse, last));
    }
  }

  /** Every well-formed line that was handed over is stored. */
  lemma DeliveredAreStored(t: R.Tables, w: string, sid: string, parse: Line -> R.Input, chunks: seq<seq<Line>>, l: Line)
    requires l in Flatten(chunks) && parse(l).p.Some?
    ensures R.Stored(Fed(t, w, sid, parse, chunks).events, sid, parse(l).p.value.key)
  {
    var lines := Flatten(chunks);
    ChunksAreOneBatch(t, w, sid, parse, chunks);
    InputsMember(parse, lines);
    R.IngestStores(t, w, sid, Inputs(parse, lines));
    var i :| 0 <= i < |lines| && lines[i] == l;
    assert Inputs(parse, lines)[i] == parse(l);
  }

  // ---------------------------------------------------------------- lines handed over twice

  /** Events without their numbers; a repeated line uses one up. */
  function Bare(es: seq<R.Event>): seq<R.Event> { seq(|es|, i requires 0 <= i < |es| => es[i].(id := 0)) }

  /** The same events, but for their numbers, and the same rollups. */
  predicate SameTables(a: R.Tables, b: R.Tables) {
    Bare(a.events) == Bare(b.events) && a.costs == b.costs && a.stats == b.stats && a.tools == b.tools
  }

  lemma SameStored(a: seq<R.Event>, b: seq<R.Event>, sid: string, key: string)
    requires Bare(a) == Bare(b)
    ensures R.Stored(a, sid, key) <==> R.Stored(b, sid, key)
  {
    assert |a| == |Bare(a)| == |b|;
    forall i | 0 <= i < |a| ensures a[i].sid == b[i].sid && a[i].p == b[i].p {
      assert Bare(a)[i] == a[i].(id := 0) && Bare(b)[i] == b[i].(id := 0);
    }
  }

  lemma BareSnoc(es: seq<R.Event>, e: R.Event)
    ensures Bare(es + [e]) == Bare(es) + [e.(id := 0)]
  {
  }

  lemma SameAfterOne(a: R.Tables, b: R.Tables, w: string, sid: string, raw: string, p: R.Parsed)
    requires SameTables(a, b)
    ensures SameTables(R.IngestOne(a, w, sid, raw, p).0, R.IngestOne(b, w, sid, raw, p).0)
  {
    SameStored(a.events, b.events, sid, p.key);
    BareSnoc(a.events, R.Event(a.nextId, sid, w, p, raw));
    BareSnoc(b.events, R.Event(b.nextId, sid, w, p, raw));
  }

  lemma IngestSnoc(t: R.Tables, w: string, sid: string, parse: Line -> R.Input, lines: seq<Line>)
    requires lines != []
    ensures var t' := R.IngestLines(t, w, sid, Inputs(parse, lines[..|lines| - 1])).0;
      var l := parse(lines[|lines| - 1]);
      R.IngestLines(t, w, sid, Inputs(parse, lines)).0 == if l.p == None then t' else R.IngestOne(t', w, sid, l.raw, l.p.value).0
  {
    var xs, l := Inputs(parse, lines[..|lines| - 1]), parse(lines[|lines| - 1]);
    assert (xs + [l])[..|xs|] == xs;
  }

  /** A line that was handed over before adds nothing. */
  lemma RepeatAddsNothing(t: R.Tables, w: string, sid: string, parse: Line -> R.Input, lines: seq<Line>, x: Line)
    requires x in lines && parse(x).p.Some?
    ensures var t' := R.IngestLines(t, w, sid, Inputs(parse, lines)).0;
      SameTables(R.IngestOne(t', w, sid, parse(x).raw, parse(x).p.value).0, t')
  {
    var t' := R.IngestLines(t, w, sid, Inputs(parse, lines)).0;
    InputsMember(parse, lines);
    R.IngestStores(t, w, sid, Inputs(parse, lines));
    var i :| 0 <= i < |lines| && lines[i] == x;
    assert Inputs(parse, lines)[i] == parse(x);
    assert R.Stored(t'.events, sid, parse(x).p.value.key);
  }

  /** However often lines come again, the tables are those of the lines once each. */
  lemma {:induction false} AgainTables(t: R.Tables, w: string, sid: string, parse: Line -> R.Input, rows: seq<Line>, all: seq<Line>)
    requires Again(rows, all)
    ensures SameTables(R.IngestLines(t, w, sid, Inputs(parse, rows)).0, R.IngestLines(t, w, sid, Inputs(parse, all)).0)
    decreases |rows|
  {
    if rows != [] {
      var front, x := rows[..|rows| - 1], rows[|rows| - 1];
      IngestSnoc(t, w, sid, parse, rows);
      if x in front && Again(front, all) {
        AgainTables(t, w, sid, parse, front, all);
        if parse(x).p.Some? { RepeatAddsNothing(t, w, sid, parse, front, x); }
      } else {
        AgainTables(t, w, sid, parse, front, all[..|all| - 1]);
        IngestSnoc(t, w, sid, parse, all);
        if parse(x).p.Some? {
          SameAfterOne(R.IngestLines(t, w, sid, Inputs(parse, front)).0,
                       R.IngestLines(t, w, sid, Inputs(parse, all[..|all| - 1])).0, w, sid, parse(x).raw, parse(x).p.value);
        }
      }
    }
  }

  /**
   * After any history of a host, crashes, failed chunks and lost answers included: the tables are those of
   * exactly the lines up to the saved offset, each once, after what earlier files brought.
   */
  lemma TablesAreTheLines(h: HostIngest, t: R.Tables, w: string, sid: string, parse: Line -> R.Input)
    requires h.Valid()
    ensures SameTables(
      Fed(t, w, sid, parse, h.chunks),
      R.IngestLines(t, w, sid, Inputs(parse, h.base + Kept(h.Q(), h.file, 0, h.From(h.saved, h.ino)))).0)
  {
    ChunksAreOneBatch(t, w, sid, parse, h.chunks);
    AgainTables(t, w, sid, parse, h.rows, h.base + Kept(h.Q(), h.file, 0, h.From(h.saved, h.ino)));
  }

  /**
   * A transcript replaced by one whose lines were all handed over before is handed over again from its
   * start, and changes no table: the keys keep the rows that are there.
   */
  lemma ReplacedFileAddsNothing(t: R.Tables, w: string, sid: string, parse: Line -> R.Input,
                                q: Rule, base: seq<Line>, file: seq<byte>, hi: nat)
    requires hi <= |file| && forall l :: l in Kept(q, file, 0, hi) ==> l in base
    ensures SameTables(R.IngestLines(t, w, sid, Inputs(parse, base + Kept(q, file, 0, hi))).0,
                       R.IngestLines(t, w, sid, Inputs(parse, base)).0)
  {
    AgainSame(base);
    AgainRepeat(base, base, Kept(q, file, 0, hi));
    AgainTables(t, w, sid, parse, base + Kept(q, file, 0, hi), base);
  }
}
