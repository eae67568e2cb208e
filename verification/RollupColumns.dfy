/**
 * The rollups column by column (src/main/db.ts ingestOne and the GROUP BY rebuilds of schema versions 13
 * and 14): every stored number is the sum, maximum or count of the events' own columns of that name.
 */
module RollupColumns {
  import opened Prelude
  import R = Rollups

  // ---------------------------------------------------------------- sums over the events

  datatype Column = InputTokens | OutputTokens | CacheReadTokens | CacheCreationTokens

  /** The column of an event; None is NULL. */
  function Cell(e: R.Event, c: Column): Option<int> {
    match c
    case InputTokens => e.p.input
    case OutputTokens => e.p.output
    case CacheReadTokens => e.p.cacheRead
    case CacheCreationTokens => e.p.cacheCreate
  }

  /** NULL adds nothing. */
  function Amount(e: R.Event, c: Column): int {
    match Cell(e, c)
    case None => 0
    case Some(n) => n
  }

  /** The event belongs to the group; the key columns hold '' for NULL. */
  predicate InGroup(e: R.Event, sid: string, wid: string, model: string, tier: string) {
    && e.sid == sid && e.wid == wid
    && (e.p.model == Some(model) || (e.p.model == None && model == ""))
    && (e.p.tier == Some(tier) || (e.p.tier == None && tier == ""))
  }

  function Sum(es: seq<R.Event>, sid: string, wid: string, model: string, tier: string, c: Column): int {
    if es == [] then 0
    else Sum(es[..|es| - 1], sid, wid, model, tier, c)
         + if InGroup(es[|es| - 1], sid, wid, model, tier) then Amount(es[|es| - 1], c) else 0
  }

  function Number(es: seq<R.Event>, sid: string, wid: string, model: string, tier: string): nat {
    if es == [] then 0
    else Number(es[..|es| - 1], sid, wid, model, tier) + if InGroup(es[|es| - 1], sid, wid, model, tier) then 1 else 0
  }

  function Uses(es: seq<R.Event>, sid: string, tool: string): nat {
    if es == [] then 0
    else Uses(es[..|es| - 1], sid, tool) + if es[|es| - 1].sid == sid && es[|es| - 1].p.tool == Some(tool) then 1 else 0
  }

  /** The tokens an assistant event had in its context. */
  function Context(e: R.Event): int { Amount(e, InputTokens) + Amount(e, CacheReadTokens) + Amount(e, CacheCreationTokens) }

  predicate Speaks(e: R.Event, sid: string) { e.sid == sid && e.p.kind == "assistant" }

  // ---------------------------------------------------------------- the recomputed groups

  /** The row of a group, by its columns. */
  predicate RowIs(row: R.Cost, es: seq<R.Event>, sid: string, wid: string, model: string, tier: string) {
    && row.input == Sum(es, sid, wid, model, tier, InputTokens)
    && row.output == Sum(es, sid, wid, model, tier, OutputTokens)
    && row.cacheRead == Sum(es, sid, wid, model, tier, CacheReadTokens)
    && row.cacheCreate == Sum(es, sid, wid, model, tier, CacheCreationTokens)
    && row.count == Number(es, sid, wid, model, tier)
  }

  lemma {:induction false} EmptyGroup(es: seq<R.Event>, sid: string, wid: string, model: string, tier: string, c: Column)
    requires Number(es, sid, wid, model, tier) == 0
    ensures Sum(es, sid, wid, model, tier, c) == 0
  {
    if es != [] { EmptyGroup(es[..|es| - 1], sid, wid, model, tier, c); }
  }

  lemma {:induction false} GroupIsItsColumns(es: seq<R.Event>, sid: string, wid: string, model: string, tier: string)
    ensures var g := R.CostGroup(es, R.CostKey(sid, wid, model, tier));
      && (g == None <==> Number(es, sid, wid, model, tier) == 0)
      && (g.Some? ==> RowIs(g.value, es, sid, wid, model, tier))
  {
    if es != [] {
      var front := es[..|es| - 1];
      GroupIsItsColumns(front, sid, wid, model, tier);
      if Number(front, sid, wid, model, tier) == 0 {
        EmptyGroup(front, sid, wid, model, tier, InputTokens);
        EmptyGroup(front, sid, wid, model, tier, OutputTokens);
        EmptyGroup(front, sid, wid, model, tier, CacheReadTokens);
        EmptyGroup(front, sid, wid, model, tier, CacheCreationTokens);
      }
    }
  }

  lemma {:induction false} CountIsItsUses(es: seq<R.Event>, sid: string, tool: string)
    ensures R.ToolCount(es, (sid, tool)) == if Uses(es, sid, tool) == 0 then None else Some(Uses(es, sid, tool))
  {
    if es != [] { CountIsItsUses(es[..|es| - 1], sid, tool); }
  }

  // ---------------------------------------------------------------- after every history

  /** session_costs has a row exactly for every group with events, and its columns are their sums. */
  lemma CostsAreColumnSums(ops: seq<R.Op>, sid: string, wid: string, model: string, tier: string)
    ensures var t, k := R.Run(R.Empty, ops), R.CostKey(sid, wid, model, tier);
      && (k in t.costs <==> Number(t.events, sid, wid, model, tier) > 0)
      && (k in t.costs ==> RowIs(t.costs[k], t.events, sid, wid, model, tier))
  {
    var t, k := R.Run(R.Empty, ops), R.CostKey(sid, wid, model, tier);
    R.RollupsRefineRecomputation(ops);
    assert R.Get(t.costs, k) == R.CostGroup(t.events, k);
    GroupIsItsColumns(t.events, sid, wid, model, tier);
  }

  /** session_stats has a row exactly for every session with assistant events: the largest context among them. */
  lemma StatsAreMaxima(ops: seq<R.Op>, sid: string)
    ensures var t := R.Run(R.Empty, ops);
      && (sid in t.stats <==> exists i :: 0 <= i < |t.events| && Speaks(t.events[i], sid))
      && (sid in t.stats ==>
            && (exists i :: 0 <= i < |t.events| && Speaks(t.events[i], sid) && Context(t.events[i]) == t.stats[sid])
            && (forall i :: 0 <= i < |t.events| && Speaks(t.events[i], sid) ==> Context(t.events[i]) <= t.stats[sid]))
  {
    var t := R.Run(R.Empty, ops);
    R.RollupsRefineRecomputation(ops);
    assert R.Get(t.stats, sid) == R.ContextMax(t.events, sid);
    R.ContextMaxIsMax(t.events, sid);
    forall e: R.Event ensures R.ContextOf(e) == Context(e) { }
    if sid in t.stats {
      var i :| 0 <= i < |t.events| && t.events[i].sid == sid && t.events[i].p.kind == "assistant" && R.ContextOf(t.events[i]) == t.stats[sid];
      assert Speaks(t.events[i], sid) && Context(t.events[i]) == t.stats[sid];
    }
  }

  /** session_tool_counts has a row exactly for every tool used: the number of its uses. */
  lemma ToolsAreCounts(ops: seq<R.Op>, sid: string, tool: string)
    ensures var t := R.Run(R.Empty, ops);
      && ((sid, tool) in t.tools <==> Uses(t.events, sid, tool) > 0)
      && ((sid, tool) in t.tools ==> t.tools[(sid, tool)] == Uses(t.events, sid, tool))
  {
    var t := R.Run(R.Empty, ops);
    R.RollupsRefineRecomputation(ops);
    assert R.Get(t.tools, (sid, tool)) == R.ToolCount(t.events, (sid, tool));
    CountIsItsUses(t.events, sid, tool);
  }

  // ---------------------------------------------------------------- the events themselves

  /** A line is stored, as it is, exactly if its session has no event with its key. */
  lemma InsertExactly(t: R.Tables, wid: string, sid: string, raw: string, p: R.Parsed)
    ensures var (t', inserted) := R.IngestOne(t, wid, sid, raw, p);
      && (inserted <==> forall i :: 0 <= i < |t.events| && t.events[i].sid == sid ==> t.events[i].p.key != p.key)
      && t'.events == (if inserted then t.events + [R.Event(t.nextId, sid, wid, p, raw)] else t.events)
      && t'.nextId == t.nextId + 1
  {
  }

  /** The text given last for an id. */
  function LastText(updates: seq<(nat, string)>, id: nat): Option<string> {
    if updates == [] then None
    else if LastText(updates[1..], id).Some? then LastText(updates[1..], id)
    else if updates[0].0 == id then Some(updates[0].1) else None
  }

  function Text(e: R.Event, updates: seq<(nat, string)>): string {
    match LastText(updates, e.id)
    case None => e.raw
    case Some(raw) => raw
  }

  /** A rewrite gives each named event its last text, and changes nothing else of any event. */
  lemma {:induction false} RewriteExactly(t: R.Tables, updates: seq<(nat, string)>)
    ensures var t' := R.RewriteEventRaw(t, updates);
      && |t'.events| == |t.events| && t' == t.(events := t'.events)
      && forall i :: 0 <= i < |t.events| ==> t'.events[i] == t.events[i].(raw := Text(t.events[i], updates))
    decreases |updates|
  {
    if updates != [] {
      var m := t.(events := R.Rewritten(t.events, updates[0].0, updates[0].1));
      RewriteExactly(m, updates[1..]);
      forall i | 0 <= i < |t.events|
        ensures R.RewriteEventRaw(t, updates).events[i] == t.events[i].(raw := Text(t.events[i], updates))
      {
        assert m.events[i].id == t.events[i].id;
      }
    }
  }

  /** Deleting a session removes exactly its events and its rows. */
  lemma DeleteExactly(t: R.Tables, sid: string)
    ensures var t' := R.DeleteSession(t, sid);
      && (forall e :: e in t'.events <==> e in t.events && e.sid != sid)
      && (forall k :: k in t'.costs <==> k in t.costs && k.sid != sid) && (forall k :: k in t'.costs ==> t'.costs[k] == t.costs[k])
      && (forall s :: s in t'.stats <==> s in t.stats && s != sid) && (forall s :: s in t'.stats ==> t'.stats[s] == t.stats[s])
      && (forall k :: k in t'.tools <==> k in t.tools && k.0 != sid) && (forall k :: k in t'.tools ==> t'.tools[k] == t.tools[k])
  {
    WithoutExactly(t.events, sid);
  }

  lemma {:induction false} WithoutExactly(es: seq<R.Event>, sid: string)
    ensures forall e :: e in R.Without(es, sid) <==> e in es && e.sid != sid
    decreases |es|
  {
    if es != [] {
      WithoutExactly(es[..|es| - 1], sid);
      assert es == es[..|es| - 1] + [es[|es| - 1]];
    }
  }
}
