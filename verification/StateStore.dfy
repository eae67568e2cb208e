/**
 * The store as the source runs it (src/main/db.ts): transactions that update tables in
 * place, roll back, and repair the in-memory guard set by hand.
 */
module StateStore {
  import opened Prelude
  import R = Rollups
  import M = TabMapping

  predicate AnyParsed(lines: seq<R.Input>) {
    exists i :: 0 <= i < |lines| && lines[i].p.Some?
  }

  lemma IngestLinesSnoc(t: R.Tables, w: string, sid: string, lines: seq<R.Input>, n: nat)
    requires n < |lines|
    ensures var (t', rs) := R.IngestLines(t, w, sid, lines[..n]);
      R.IngestLines(t, w, sid, lines[..n + 1]) ==
        if lines[n].p == None then (t', rs + [false])
        else var (t'', r) := R.IngestOne(t', w, sid, lines[n].raw, lines[n].p.value); (t'', rs + [r])
  {
    assert lines[..n + 1][..n] == lines[..n];
  }

  class StateStore {
    // tables
    var events: seq<R.Event>
    var nextId: nat
    var costs: map<R.CostKey, R.Cost>
    var stats: map<string, int>
    var tools: map<(string, string), int>
    var known: set<string>
    var rows: map<M.Tab, M.Mapping>
    // in memory
    var pendingClaudeIds: set<(string, string)>

    ghost function Tables(): R.Tables
      reads this
    {
      R.Tables(events, nextId, costs, stats, tools)
    }

    ghost function Tabs(): M.Tabs
      reads this
    {
      M.Tabs(known, rows, pendingClaudeIds)
    }

    constructor ()
      ensures Tables() == R.Empty && Tabs() == M.NoTabs
    {
      events, nextId, costs, stats, tools := [], 1, map[], map[], map[];
      known, rows, pendingClaudeIds := {}, map[], {};
    }

    method IngestOne(w: string, sid: string, raw: string, p: R.Parsed) returns (inserted: bool)
      modifies this`events, this`nextId, this`costs, this`stats, this`tools
      ensures (Tables(), inserted) == R.IngestOne(old(Tables()), w, sid, raw, p)
    {
      inserted := !R.Stored(events, sid, p.key);
      if inserted {
        var e := R.Event(nextId, sid, w, p, raw);
        events := events + [e];
        var k := R.CostKeyOf(e);
        costs := costs[k := if k in costs then R.Plus(costs[k], R.CostOf(e)) else R.CostOf(e)];
        if p.kind == "assistant" {
          var tokens := R.OrZero(p.input) + R.OrZero(p.cacheRead) + R.OrZero(p.cacheCreate);
          stats := stats[sid := if sid in stats && tokens <= stats[sid] then stats[sid] else tokens];
        }
        if p.tool.Some? {
          tools := tools[(sid, p.tool.value) := if (sid, p.tool.value) in tools then tools[(sid, p.tool.value)] + 1 else 1];
        }
      }
      nextId := nextId + 1;
    }

    /** promotePendingBrokerMapping, behind its guard. */
    method PromotePending(w: string, sid: string)
      modifies this`rows
      ensures rows == M.Promoted(old(rows), w, sid)
    {
      var todo := rows.Keys;
      while todo != {}
        invariant todo <= rows.Keys == old(rows).Keys
        invariant forall t :: t in rows ==>
          rows[t] == if t in todo then old(rows)[t] else M.Promoted(old(rows), w, sid)[t]
        decreases |todo|
      {
        var t :| t in todo;
        if t.0 == w && rows[t].pending == Some(sid) {
          rows := rows[t := M.Mapping(sid, None)];
        }
        todo := todo - {t};
      }
    }

    /** One line inside a chunk's transaction; the first well-formed one promotes, if the guard says so. */
    method ChunkLine(w: string, sid: string, l: R.Input, promoted: bool) returns (r: bool, promotes: bool)
      modifies this`events, this`nextId, this`costs, this`stats, this`tools, this`rows, this`pendingClaudeIds
      ensures (Tables(), r) == if l.p == None then (old(Tables()), false) else R.IngestOne(old(Tables()), w, sid, l.raw, l.p.value)
      ensures promotes == (l.p.Some? && !promoted && (w, sid) in old(pendingClaudeIds))
      ensures rows == if promotes then M.Promoted(old(rows), w, sid) else old(rows)
      ensures pendingClaudeIds == if promotes then old(pendingClaudeIds) - {(w, sid)} else old(pendingClaudeIds)
    {
      r, promotes := false, false;
      if l.p.Some? {
        r := IngestOne(w, sid, l.raw, l.p.value);
        if !promoted && (w, sid) in pendingClaudeIds {
          PromotePending(w, sid);
          pendingClaudeIds := pendingClaudeIds - {(w, sid)};
          promotes := true;
        }
      }
    }

    /** Some of a chunk's lines, up to a failure. */
    method ChunkLines(w: string, sid: string, lines: seq<R.Input>) returns (i: nat, results: seq<bool>, promoted: bool)
      modifies this`events, this`nextId, this`costs, this`stats, this`tools, this`rows, this`pendingClaudeIds
      ensures i <= |lines| && (Tables(), results) == R.IngestLines(old(Tables()), w, sid, lines[..i])
      ensures promoted <==> AnyParsed(lines[..i]) && (w, sid) in old(pendingClaudeIds)
      ensures rows == if promoted then M.Promoted(old(rows), w, sid) else old(rows)
      ensures pendingClaudeIds == if promoted then old(pendingClaudeIds) - {(w, sid)} else old(pendingClaudeIds)
    {
      results, promoted, i := [], false, 0;
      assert lines[..0] == [];
      var failed := false;
      while i < |lines| && !failed
        invariant i <= |lines| && (Tables(), results) == R.IngestLines(old(Tables()), w, sid, lines[..i])
        invariant promoted <==> AnyParsed(lines[..i]) && (w, sid) in old(pendingClaudeIds)
        invariant rows == if promoted then M.Promoted(old(rows), w, sid) else old(rows)
        invariant pendingClaudeIds == if promoted then old(pendingClaudeIds) - {(w, sid)} else old(pendingClaudeIds)
        decreases |lines| - i, !failed
      {
        IngestLinesSnoc(old(Tables()), w, sid, lines, i);
        AnyParsedSnoc(lines, i);
        var r, promotes := ChunkLine(w, sid, lines[i], promoted);
        results, promoted, i := results + [r], promoted || promotes, i + 1;
        failed := *;
      }
    }

    /** One chunk transaction of ingestBatch: it commits as a whole or leaves nothing, guard included. */
    method IngestChunk(w: string, sid: string, lines: seq<R.Input>) returns (ok: bool, results: seq<bool>)
      modifies this
      ensures ok ==> (Tables(), results) == R.IngestLines(old(Tables()), w, sid, lines)
      ensures ok ==> Tabs() == if AnyParsed(lines) then M.Ingested(old(Tabs()), w, sid) else old(Tabs())
      ensures !ok ==> Tables() == old(Tables()) && Tabs() == old(Tabs())
    {
      var events0, nextId0, costs0, stats0, tools0, known0, rows0 := events, nextId, costs, stats, tools, known, rows;
      if AnyParsed(lines) {
        known := known + {sid};
      }
      var i, promoted;
      i, results, promoted := ChunkLines(w, sid, lines);
      ok := *;
      ok := ok && i == |lines|;
      assert lines[..|lines|] == lines;
      if !ok {
        events, nextId, costs, stats, tools, known, rows := events0, nextId0, costs0, stats0, tools0, known0, rows0;
        if promoted {
          pendingClaudeIds := pendingClaudeIds + {(w, sid)};
        }
      }
    }

    static lemma AnyParsedSnoc(lines: seq<R.Input>, n: nat)
      requires n < |lines|
      ensures AnyParsed(lines[..n + 1]) <==> AnyParsed(lines[..n]) || lines[n].p.Some?
      ensures AnyParsed(lines[..n + 1]) ==> AnyParsed(lines)
    {
      if AnyParsed(lines[..n]) {
        var i :| 0 <= i < n && lines[..n][i].p.Some?;
        assert lines[..n + 1][i].p.Some?;
      }
      if lines[n].p.Some? {
        assert lines[..n + 1][n].p.Some?;
      }
      if AnyParsed(lines[..n + 1]) {
        var i :| 0 <= i <= n && lines[..n + 1][i].p.Some?;
        assert lines[i].p.Some?;
        if i < n {
          assert lines[..n][i].p.Some?;
        }
      }
    }

    /** ingestBatch: chunk after chunk; a failed chunk ends the batch with the earlier ones in place. */
    method IngestBatch(w: string, sid: string, lines: seq<R.Input>) returns (ok: bool, ghost n: nat)
      modifies this
      ensures n <= |lines| && (ok ==> n == |lines|) && (!ok ==> n % INGEST_TX_LINES == 0)
      ensures Tables() == R.IngestLines(old(Tables()), w, sid, lines[..n]).0
      ensures Tabs() == if AnyParsed(lines[..n]) then M.Ingested(old(Tabs()), w, sid) else old(Tabs())
    {
      var start := 0;
      n := 0;
      assert lines[..0] == [];
      while start < |lines|
        invariant n == Min(start, |lines|) && start % INGEST_TX_LINES == 0 && 0 <= start
        invariant Tables() == R.IngestLines(old(Tables()), w, sid, lines[..n]).0
        invariant Tabs() == if AnyParsed(lines[..n]) then M.Ingested(old(Tabs()), w, sid) else old(Tabs())
      {
        var end := Min(start + INGEST_TX_LINES, |lines|);
        var chunk := lines[start..end];
        var done, rs := IngestChunk(w, sid, chunk);
        if !done {
          return false, n;
        }
        BatchGrows(old(Tables()), w, sid, lines, start, end);
        n, start := end, start + INGEST_TX_LINES;
      }
      assert lines[..|lines|] == lines;
      ok := true;
    }

    static lemma BatchGrows(t: R.Tables, w: string, sid: string, lines: seq<R.Input>, start: nat, end: nat)
      requires start <= end <= |lines|
      ensures R.IngestLines(t, w, sid, lines[..end]).0 == R.IngestLines(R.IngestLines(t, w, sid, lines[..start]).0, w, sid, lines[start..end]).0
      ensures AnyParsed(lines[..end]) <==> AnyParsed(lines[..start]) || AnyParsed(lines[start..end])
    {
      assert lines[..end] == lines[..start] + lines[start..end];
      R.IngestLinesAppend(t, w, sid, lines[..start], lines[start..end]);
      AnyParsedAppend(lines[..start], lines[start..end]);
    }

    static lemma AnyParsedAppend(a: seq<R.Input>, b: seq<R.Input>)
      ensures AnyParsed(a + b) <==> AnyParsed(a) || AnyParsed(b)
    {
      if AnyParsed(a) {
        var i :| 0 <= i < |a| && a[i].p.Some?;
        assert (a + b)[i].p.Some?;
      }
      if AnyParsed(b) {
        var i :| 0 <= i < |b| && b[i].p.Some?;
        assert (a + b)[|a| + i].p.Some?;
      }
    }

    /** commitMappingQ: returns what was committed before and the pending id it cleared. */
    method CommitMapping(w: string, b: string, c: string) returns (previous: Option<string>, cleared: Option<string>)
      modifies this`rows
      ensures rows == old(rows)[(w, b) := M.Mapping(c, None)]
      ensures previous == if (w, b) in old(rows) then Some(old(rows)[(w, b)].committed) else None
      ensures cleared == M.PendingOf(old(Tabs()), (w, b))
    {
      previous, cleared := None, None;
      if (w, b) in rows {
        previous, cleared := Some(rows[(w, b)].committed), rows[(w, b)].pending;
      }
      rows := rows[(w, b) := M.Mapping(c, None)];
    }

    method LearnBrokerSessionMapping(w: string, b: string, c: string) returns (ok: bool, previous: Option<string>)
      modifies this`rows, this`pendingClaudeIds
      ensures ok ==> Tabs() == M.CommitTo(old(Tabs()), (w, b), c)
      ensures ok ==> previous == if (w, b) in old(rows) then Some(old(rows)[(w, b)].committed) else None
      ensures !ok ==> M.RolledBack(old(Tabs()), Tabs())
    {
      var rows0 := rows;
      var cleared;
      previous, cleared := CommitMapping(w, b, c);
      cleared := M.Clears(cleared);
      if cleared.Some? {
        pendingClaudeIds := pendingClaudeIds - {(w, cleared.value)};
      }
      ok := *;
      if !ok {
        rows := rows0;
        if cleared.Some? {
          pendingClaudeIds := pendingClaudeIds + {(w, cleared.value)};
        }
      }
    }

    /** recordBrokerSessionMapping: commit when nothing can be lost, otherwise park. */
    method RecordBrokerSessionMapping(w: string, b: string, c: string) returns (ok: bool, deferred: bool, previous: Option<string>)
      modifies this`rows, this`pendingClaudeIds
      ensures ok ==> Tabs() == M.Record(old(Tabs()), (w, b), c) && deferred == M.MustPark(old(Tabs()), (w, b), c)
      ensures previous == if (w, b) in old(rows) then Some(old(rows)[(w, b)].committed) else None
      ensures !ok ==> M.RolledBack(old(Tabs()), Tabs())
    {
      var rows0 := rows;
      var t := (w, b);
      var removed: set<string> := {};
      previous := if t in rows then Some(rows[t].committed) else None;
      var committedReal := previous.Some? && previous.value in known;
      var newReal := c in known;
      if previous == Some(c) || !committedReal || newReal {
        var was, cleared := CommitMapping(w, b, c);
        if cleared.Some? && cleared.value != "" {
          pendingClaudeIds := pendingClaudeIds - {(w, cleared.value)};
          removed := {cleared.value};
        }
        deferred := false;
      } else {
        var existing := rows[t].pending;
        rows := rows[t := rows[t].(pending := Some(c))];
        if existing.Some? && existing.value != "" && existing.value != c {
          pendingClaudeIds := pendingClaudeIds - {(w, existing.value)};
          removed := {existing.value};
        }
        pendingClaudeIds := pendingClaudeIds + {(w, c)};
        deferred := true;
      }
      ok := *;
      if !ok {
        rows := rows0;
        pendingClaudeIds := pendingClaudeIds + set id | id in removed :: (w, id);
      }
    }

    method DeleteSession(sid: string)
      modifies this
      ensures Tables() == R.DeleteSession(old(Tables()), sid)
      ensures Tabs() == M.Deleted(old(Tabs()), sid)
    {
      events := R.Without(events, sid);
      costs := map k | k in costs && k.sid != sid :: costs[k];
      stats := map s | s in stats && s != sid :: stats[s];
      tools := map k | k in tools && k.0 != sid :: tools[k];
      rows := map t | t in rows && rows[t].committed != sid :: rows[t];
      known := known - {sid};
    }

    method RewriteEventRaw(updates: seq<(nat, string)>)
      modifies this`events
      ensures Tables() == R.RewriteEventRaw(old(Tables()), updates)
    {
      var i := 0;
      assert updates[0..] == updates;
      while i < |updates|
        invariant 0 <= i <= |updates|
        invariant R.RewriteEventRaw(Tables(), updates[i..]) == R.RewriteEventRaw(old(Tables()), updates)
      {
        events := R.Rewritten(events, updates[i].0, updates[i].1);
        assert updates[i..][1..] == updates[i + 1..];
        i := i + 1;
      }
    }

    /** rehydratePendingClaudeIds: the guard is rebuilt from the rows after a restart. */
    method Rehydrate()
      modifies this`pendingClaudeIds
      ensures Tabs() == M.Rehydrated(old(Tabs()))
    {
      pendingClaudeIds := {};
      var todo := rows.Keys;
      while todo != {}
        invariant todo <= rows.Keys
        invariant pendingClaudeIds == set t | t in rows && t !in todo && rows[t].pending.Some? :: (t.0, rows[t].pending.value)
        decreases |todo|
      {
        var t :| t in todo;
        if rows[t].pending.Some? {
          pendingClaudeIds := pendingClaudeIds + {(t.0, rows[t].pending.value)};
        }
        todo := todo - {t};
      }
    }
  }
}
