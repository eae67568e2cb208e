/**
 * The events table and its three incremental rollups (src/main/db.ts ingestOne,
 * deleteSession, rewriteEventRaw, and the GROUP BY rebuilds of schema versions 13 and 14).
 */
module Rollups {
  import opened Prelude

  /** The columns of a parsed transcript line that reach the events table. */
  datatype Parsed = Parsed(
    key: string, kind: string, model: Option<string>, tier: Option<string>,
    input: Option<int>, output: Option<int>, cacheRead: Option<int>, cacheCreate: Option<int>,
    tool: Option<string>)

  datatype Event = Event(id: nat, sid: string, wid: string, p: Parsed, raw: string)

  datatype CostKey = CostKey(sid: string, wid: string, model: string, tier: string)
  datatype Cost = Cost(input: int, output: int, cacheRead: int, cacheCreate: int, count: int)

  datatype Tables = Tables(
    events: seq<Event>,
    nextId: nat,
    costs: map<CostKey, Cost>,
    stats: map<string, int>,
    tools: map<(string, string), int>)

  const Empty: Tables := Tables([], 1, map[], map[], map[])

  function OrZero(v: Option<int>): int { if v.Some? then v.value else 0 }

  function OrBlank(v: Option<string>): string { if v.Some? then v.value else "" }

  function CostKeyOf(e: Event): CostKey { CostKey(e.sid, e.wid, OrBlank(e.p.model), OrBlank(e.p.tier)) }

  function CostOf(e: Event): Cost {
    Cost(OrZero(e.p.input), OrZero(e.p.output), OrZero(e.p.cacheRead), OrZero(e.p.cacheCreate), 1)
  }

  function Plus(a: Cost, b: Cost): Cost {
    Cost(a.input + b.input, a.output + b.output, a.cacheRead + b.cacheRead, a.cacheCreate + b.cacheCreate, a.count + b.count)
  }

  function ContextOf(e: Event): int { OrZero(e.p.input) + OrZero(e.p.cacheRead) + OrZero(e.p.cacheCreate) }

  function Get<K, V>(m: map<K, V>, k: K): Option<V> { if k in m then Some(m[k]) else None }

  // ---------------------------------------------------------------- recomputation: GROUP BY over events

  /** SUM and COUNT of one group; None when the group is empty. */
  function CostGroup(es: seq<Event>, k: CostKey): Option<Cost> {
    if es == [] then None
    else
      var rest, e := CostGroup(es[..|es| - 1], k), es[|es| - 1];
      if CostKeyOf(e) != k then rest
      else Some(if rest.Some? then Plus(rest.value, CostOf(e)) else CostOf(e))
  }

  /** MAX of the context size over a session's assistant events. */
  function ContextMax(es: seq<Event>, sid: string): Option<int> {
    if es == [] then None
    else
      var rest, e := ContextMax(es[..|es| - 1], sid), es[|es| - 1];
      if e.sid != sid || e.p.kind != "assistant" then rest
      else Some(if rest.Some? then Max(rest.value, ContextOf(e)) else ContextOf(e))
  }

  /** COUNT(*) of one tool in a session. */
  function ToolCount(es: seq<Event>, k: (string, string)): Option<int> {
    if es == [] then None
    else
      var rest, e := ToolCount(es[..|es| - 1], k), es[|es| - 1];
      if e.sid != k.0 || e.p.tool != Some(k.1) then rest
      else Some(if rest.Some? then rest.value + 1 else 1)
  }

  /** Each rollup equals its recomputation, group by group, with no group missing and none left over. */
  ghost predicate Exact(t: Tables) {
    && (forall k :: Get(t.costs, k) == CostGroup(t.events, k))
    && (forall s :: Get(t.stats, s) == ContextMax(t.events, s))
    && (forall k :: Get(t.tools, k) == ToolCount(t.events, k))
  }

  /** UNIQUE(session_id, dedup_key). */
  ghost predicate Unique(es: seq<Event>) {
    forall i, j :: 0 <= i < j < |es| ==> es[i].sid != es[j].sid || es[i].p.key != es[j].p.key
  }

  /** The maximum is a maximum: attained by some assistant event of the session and never exceeded. */
  lemma {:induction false} ContextMaxIsMax(es: seq<Event>, sid: string)
    ensures ContextMax(es, sid) == None <==> (forall i :: 0 <= i < |es| ==> es[i].sid != sid || es[i].p.kind != "assistant")
    ensures ContextMax(es, sid).Some? ==>
      && (exists i :: 0 <= i < |es| && es[i].sid == sid && es[i].p.kind == "assistant" && ContextOf(es[i]) == ContextMax(es, sid).value)
      && (forall i :: 0 <= i < |es| && es[i].sid == sid && es[i].p.kind == "assistant" ==> ContextOf(es[i]) <= ContextMax(es, sid).value)
  {
    if es != [] {
      var front, e := es[..|es| - 1], es[|es| - 1];
      ContextMaxIsMax(front, sid);
      assert forall i :: 0 <= i < |front| ==> front[i] == es[i];
      if ContextMax(front, sid).Some? {
        var i :| 0 <= i < |front| && front[i].sid == sid && front[i].p.kind == "assistant" && ContextOf(front[i]) == ContextMax(front, sid).value;
        assert es[i].sid == sid;
      }
    }
  }

  // ---------------------------------------------------------------- the operations

  predicate Stored(es: seq<Event>, sid: string, key: string) {
    exists i :: 0 <= i < |es| && es[i].sid == sid && es[i].p.key == key
  }

  function BumpCost(m: map<CostKey, Cost>, e: Event): map<CostKey, Cost> {
    var k := CostKeyOf(e);
    m[k := if k in m then Plus(m[k], CostOf(e)) else CostOf(e)]
  }

  function BumpStat(m: map<string, int>, e: Event): map<string, int> {
    if e.p.kind != "assistant" then m
    else m[e.sid := if e.sid in m && ContextOf(e) <= m[e.sid] then m[e.sid] else ContextOf(e)]
  }

  function BumpTool(m: map<(string, string), int>, e: Event): map<(string, string), int> {
    if e.p.tool == None then m
    else var k := (e.sid, e.p.tool.value); m[k := if k in m then m[k] + 1 else 1]
  }

  /** ingestOne: the insert, which an existing (session, dedup key) turns into nothing, then the rollups. */
  function IngestOne(t: Tables, wid: string, sid: string, raw: string, p: Parsed): (Tables, bool) {
    if Stored(t.events, sid, p.key) then (t.(nextId := t.nextId + 1), false)
    else
      var e := Event(t.nextId, sid, wid, p, raw);
      (Tables(t.events + [e], t.nextId + 1, BumpCost(t.costs, e), BumpStat(t.stats, e), BumpTool(t.tools, e)), true)
  }

  /** A transcript line and what parsing made of it; None is a malformed line. */
  datatype Input = Input(raw: string, p: Option<Parsed>)

  function IngestLines(t: Tables, wid: string, sid: string, lines: seq<Input>): (Tables, seq<bool>)
    decreases |lines|
  {
    if lines == [] then (t, [])
    else
      var (t', rs) := IngestLines(t, wid, sid, lines[..|lines| - 1]);
      var l := lines[|lines| - 1];
      if l.p == None then (t', rs + [false])
      else var (t'', r) := IngestOne(t', wid, sid, l.raw, l.p.value); (t'', rs + [r])
  }

  function Without(es: seq<Event>, sid: string): seq<Event>
    decreases |es|
  {
    if es == [] then []
    else
      var rest, e := Without(es[..|es| - 1], sid), es[|es| - 1];
      if e.sid == sid then rest else rest + [e]
  }

  function DeleteSession(t: Tables, sid: string): Tables {
    Tables(Without(t.events, sid), t.nextId,
           map k | k in t.costs && k.sid != sid :: t.costs[k],
           map s | s in t.stats && s != sid :: t.stats[s],
           map k | k in t.tools && k.0 != sid :: t.tools[k])
  }

  function Rewritten(es: seq<Event>, id: nat, raw: string): seq<Event> {
    seq(|es|, i requires 0 <= i < |es| => if es[i].id == id then es[i].(raw := raw) else es[i])
  }

  function RewriteEventRaw(t: Tables, updates: seq<(nat, string)>): Tables
    decreases |updates|
  {
    if updates == [] then t
    else RewriteEventRaw(t.(events := Rewritten(t.events, updates[0].0, updates[0].1)), updates[1..])
  }

  // ---------------------------------------------------------------- rollups refine recomputation

  lemma IngestOneKeepsExact(t: Tables, wid: string, sid: string, raw: string, p: Parsed)
    requires Exact(t) && Unique(t.events)
    ensures var r := IngestOne(t, wid, sid, raw, p); Exact(r.0) && Unique(r.0.events)
  {
    var r := IngestOne(t, wid, sid, raw, p);
    if r.1 {
      var es' := r.0.events;
      var e := es'[|es'| - 1];
      assert es'[..|es'| - 1] == t.events;
      forall k ensures Get(r.0.costs, k) == CostGroup(es', k) {
        assert Get(t.costs, k) == CostGroup(t.events, k);
      }
      forall s ensures Get(r.0.stats, s) == ContextMax(es', s) {
        assert Get(t.stats, s) == ContextMax(t.events, s);
      }
      forall k ensures Get(r.0.tools, k) == ToolCount(es', k) {
        assert Get(t.tools, k) == ToolCount(t.events, k);
      }
    }
  }

  lemma {:induction false} IngestLinesKeepsExact(t: Tables, wid: string, sid: string, lines: seq<Input>)
    requires Exact(t) && Unique(t.events)
    ensures var r := IngestLines(t, wid, sid, lines); Exact(r.0) && Unique(r.0.events) && |r.1| == |lines|
    decreases |lines|
  {
    if lines != [] {
      var front, l := lines[..|lines| - 1], lines[|lines| - 1];
      IngestLinesKeepsExact(t, wid, sid, front);
      if l.p.Some? {
        IngestOneKeepsExact(IngestLines(t, wid, sid, front).0, wid, sid, l.raw, l.p.value);
      }
    }
  }

  lemma {:induction false} WithoutCosts(es: seq<Event>, sid: string, c: CostKey)
    ensures CostGroup(Without(es, sid), c) == if c.sid == sid then None else CostGroup(es, c)
    decreases |es|
  {
    if es != [] {
      WithoutCosts(es[..|es| - 1], sid, c);
      WithoutLast(es, sid);
    }
  }

  lemma {:induction false} WithoutContext(es: seq<Event>, sid: string, s: string)
    ensures ContextMax(Without(es, sid), s) == if s == sid then None else ContextMax(es, s)
    decreases |es|
  {
    if es != [] {
      WithoutContext(es[..|es| - 1], sid, s);
      WithoutLast(es, sid);
    }
  }

  lemma {:induction false} WithoutTools(es: seq<Event>, sid: string, k: (string, string))
    ensures ToolCount(Without(es, sid), k) == if k.0 == sid then None else ToolCount(es, k)
    decreases |es|
  {
    if es != [] {
      WithoutTools(es[..|es| - 1], sid, k);
      WithoutLast(es, sid);
    }
  }

  lemma WithoutLast(es: seq<Event>, sid: string)
    requires es != []
    ensures var w, rest, e := Without(es, sid), Without(es[..|es| - 1], sid), es[|es| - 1];
      if e.sid == sid then w == rest else w != [] && w[..|w| - 1] == rest && w[|w| - 1] == e
  {
    var rest := Without(es[..|es| - 1], sid);
    assert (rest + [es[|es| - 1]])[..|rest|] == rest;
  }

  /** Deleting a session's events empties its groups and leaves every other group as it was. */
  lemma WithoutGroups(es: seq<Event>, sid: string, c: CostKey, s: string, k: (string, string))
    ensures CostGroup(Without(es, sid), c) == if c.sid == sid then None else CostGroup(es, c)
    ensures ContextMax(Without(es, sid), s) == if s == sid then None else ContextMax(es, s)
    ensures ToolCount(Without(es, sid), k) == if k.0 == sid then None else ToolCount(es, k)
  {
    WithoutCosts(es, sid, c);
    WithoutContext(es, sid, s);
    WithoutTools(es, sid, k);
  }

  lemma {:induction false} WithoutMembers(es: seq<Event>, sid: string)
    ensures forall x :: x in Without(es, sid) ==> x in es
    ensures Unique(es) ==> Unique(Without(es, sid))
    decreases |es|
  {
    if es != [] {
      var front, rest := es[..|es| - 1], Without(es[..|es| - 1], sid);
      WithoutMembers(front, sid);
      assert forall x :: x in front ==> x in es;
      if Unique(es) {
        forall i | 0 <= i < |rest|
          ensures rest[i].sid != es[|es| - 1].sid || rest[i].p.key != es[|es| - 1].p.key
        {
          assert rest[i] in front;
        }
      }
    }
  }

  lemma DeleteKeepsExact(t: Tables, sid: string)
    requires Exact(t) && Unique(t.events)
    ensures Exact(DeleteSession(t, sid)) && Unique(DeleteSession(t, sid).events)
  {
    var t' := DeleteSession(t, sid);
    WithoutMembers(t.events, sid);
    forall k ensures Get(t'.costs, k) == CostGroup(t'.events, k) {
      WithoutGroups(t.events, sid, k, "", ("", ""));
      assert Get(t.costs, k) == CostGroup(t.events, k);
    }
    forall s ensures Get(t'.stats, s) == ContextMax(t'.events, s) {
      WithoutGroups(t.events, sid, CostKey("", "", "", ""), s, ("", ""));
      assert Get(t.stats, s) == ContextMax(t.events, s);
    }
    forall k ensures Get(t'.tools, k) == ToolCount(t'.events, k) {
      WithoutGroups(t.events, sid, CostKey("", "", "", ""), "", k);
      assert Get(t.tools, k) == ToolCount(t.events, k);
    }
  }

  /** The raw text takes no part in any group. */
  lemma {:induction false} RewrittenGroups(es: seq<Event>, id: nat, raw: string, c: CostKey, s: string, k: (string, string))
    ensures CostGroup(Rewritten(es, id, raw), c) == CostGroup(es, c)
    ensures ContextMax(Rewritten(es, id, raw), s) == ContextMax(es, s)
    ensures ToolCount(Rewritten(es, id, raw), k) == ToolCount(es, k)
    decreases |es|
  {
    if es != [] {
      var front := es[..|es| - 1];
      RewrittenGroups(front, id, raw, c, s, k);
      var es' := Rewritten(es, id, raw);
      assert es'[..|es'| - 1] == Rewritten(front, id, raw);
    }
  }

  lemma {:induction false} RewriteKeepsExact(t: Tables, updates: seq<(nat, string)>)
    requires Exact(t) && Unique(t.events)
    ensures Exact(RewriteEventRaw(t, updates)) && Unique(RewriteEventRaw(t, updates).events)
    decreases |updates|
  {
    if updates != [] {
      var (id, raw) := updates[0];
      var t' := t.(events := Rewritten(t.events, id, raw));
      forall c: CostKey ensures Get(t'.costs, c) == CostGroup(t'.events, c) {
        RewrittenGroups(t.events, id, raw, c, "", ("", ""));
        assert Get(t.costs, c) == CostGroup(t.events, c);
      }
      forall s: string ensures Get(t'.stats, s) == ContextMax(t'.events, s) {
        RewrittenGroups(t.events, id, raw, CostKey("", "", "", ""), s, ("", ""));
        assert Get(t.stats, s) == ContextMax(t.events, s);
      }
      forall k: (string, string) ensures Get(t'.tools, k) == ToolCount(t'.events, k) {
        RewrittenGroups(t.events, id, raw, CostKey("", "", "", ""), "", k);
        assert Get(t.tools, k) == ToolCount(t.events, k);
      }
      assert Unique(t'.events);
      RewriteKeepsExact(t', updates[1..]);
    }
  }

  /** Committed operations; a rolled-back one leaves no trace. */
  datatype Op =
    | Ingest(wid: string, sid: string, lines: seq<Input>)
    | Rewrite(updates: seq<(nat, string)>)
    | Delete(sid: string)

  function Apply(t: Tables, op: Op): Tables {
    match op
    case Ingest(wid, sid, lines) => IngestLines(t, wid, sid, lines).0
    case Rewrite(updates) => RewriteEventRaw(t, updates)
    case Delete(sid) => DeleteSession(t, sid)
  }

  function Run(t: Tables, ops: seq<Op>): Tables
    decreases |ops|
  {
    if ops == [] then t else Apply(Run(t, ops[..|ops| - 1]), ops[|ops| - 1])
  }

  lemma ApplyKeepsExact(t: Tables, op: Op)
    requires Exact(t) && Unique(t.events)
    ensures Exact(Apply(t, op)) && Unique(Apply(t, op).events)
  {
    match op
    case Ingest(wid, sid, lines) => IngestLinesKeepsExact(t, wid, sid, lines);
    case Rewrite(updates) => RewriteKeepsExact(t, updates);
    case Delete(sid) => DeleteKeepsExact(t, sid);
  }

  /** At every commit boundary of every history, the rollups are what GROUP BY would compute. */
  lemma {:induction false} RollupsRefineRecomputation(ops: seq<Op>)
    ensures Exact(Run(Empty, ops)) && Unique(Run(Empty, ops).events)
    decreases |ops|
  {
    if ops != [] {
      RollupsRefineRecomputation(ops[..|ops| - 1]);
      ApplyKeepsExact(Run(Empty, ops[..|ops| - 1]), ops[|ops| - 1]);
    }
  }

  // ---------------------------------------------------------------- replay

  lemma {:induction false} IngestLinesAppend(t: Tables, w: string, sid: string, a: seq<Input>, b: seq<Input>)
    ensures IngestLines(t, w, sid, a + b).0 == IngestLines(IngestLines(t, w, sid, a).0, w, sid, b).0
    decreases |b|
  {
    if b == [] {
      assert a + b == a;
    } else {
      IngestLinesAppend(t, w, sid, a, b[..|b| - 1]);
      assert (a + b)[..|a + b| - 1] == a + b[..|b| - 1];
    }
  }

  /** Every well-formed line is stored already. */
  ghost predicate Known(es: seq<Event>, sid: string, lines: seq<Input>) {
    forall i :: 0 <= i < |lines| && lines[i].p.Some? ==> Stored(es, sid, lines[i].p.value.key)
  }

  lemma {:induction false} ReplayChangesNothing(t: Tables, wid: string, sid: string, lines: seq<Input>)
    requires Known(t.events, sid, lines)
    ensures var (t', rs) := IngestLines(t, wid, sid, lines);
      && t' == t.(nextId := t'.nextId) && t.nextId <= t'.nextId
      && |rs| == |lines| && (forall i :: 0 <= i < |rs| ==> !rs[i])
    decreases |lines|
  {
    if lines != [] {
      ReplayChangesNothing(t, wid, sid, lines[..|lines| - 1]);
    }
  }

  lemma {:induction false} IngestStores(t: Tables, wid: string, sid: string, lines: seq<Input>)
    ensures t.events <= IngestLines(t, wid, sid, lines).0.events
    ensures Known(IngestLines(t, wid, sid, lines).0.events, sid, lines)
    decreases |lines|
  {
    if lines != [] {
      var front, l := lines[..|lines| - 1], lines[|lines| - 1];
      IngestStores(t, wid, sid, front);
      var es := IngestLines(t, wid, sid, front).0.events;
      var es' := IngestLines(t, wid, sid, lines).0.events;
      StoredGrows(es, es');
      if l.p.Some? && !Stored(es, sid, l.p.value.key) {
        assert es'[|es'| - 1].sid == sid && es'[|es'| - 1].p.key == l.p.value.key;
      }
      forall i | 0 <= i < |lines| && lines[i].p.Some?
        ensures Stored(es', sid, lines[i].p.value.key)
      {
        if i < |front| {
          assert front[i] == lines[i];
        }
      }
    }
  }

  lemma StoredGrows(es: seq<Event>, es': seq<Event>)
    requires es <= es'
    ensures forall sid, key :: Stored(es, sid, key) ==> Stored(es', sid, key)
  {
    forall sid, key | Stored(es, sid, key)
      ensures Stored(es', sid, key)
    {
      var i :| 0 <= i < |es| && es[i].sid == sid && es[i].p.key == key;
      assert es'[i] == es[i];
    }
  }

  /** Ingesting again any lines that came in before, in any order and number, changes no table. */
  lemma IngestIsIdempotent(t: Tables, wid: string, wid': string, sid: string, lines: seq<Input>, again: seq<Input>)
    requires forall i :: 0 <= i < |again| ==> again[i] in lines
    ensures var t1 := IngestLines(t, wid, sid, lines).0;
      var t2 := IngestLines(t1, wid', sid, again).0;
      t2 == t1.(nextId := t2.nextId)
  {
    var t1 := IngestLines(t, wid, sid, lines).0;
    IngestStores(t, wid, sid, lines);
    forall i | 0 <= i < |again| && again[i].p.Some?
      ensures Stored(t1.events, sid, again[i].p.value.key)
    {
      var j :| 0 <= j < |lines| && lines[j] == again[i];
    }
    ReplayChangesNothing(t1, wid', sid, again);
  }
}
