/**
 * Which conversation a tab shows (src/main/db.ts broker_sessions): committed and parked
 * mappings, and the in-memory guard that lets ingest find a parked one.
 */
module TabMapping {
  import opened Prelude

  /** (workspace_id, broker_session_id) */
  type Tab = (string, string)

  /** claude_session_id and pending_claude_session_id of one row. */
  datatype Mapping = Mapping(committed: string, pending: Option<string>)

  datatype Tabs = Tabs(
    known: set<string>,              // sessions with a transcript row
    rows: map<Tab, Mapping>,        // broker_sessions
    guard: set<(string, string)>)   // pendingClaudeIds: (workspace, session) pairs

  const NoTabs: Tabs := Tabs({}, map[], {})

  predicate Parked(s: Tabs, t: Tab, c: string) { t in s.rows && s.rows[t].pending == Some(c) }

  // ---------------------------------------------------------------- the operations

  function PendingOf(s: Tabs, t: Tab): Option<string> { if t in s.rows then s.rows[t].pending else None }

  /** The parked id whose guard key goes when it is cleared: the code takes an empty id for none. */
  function Clears(p: Option<string>): Option<string> { if p == Some("") then None else p }

  function Unguard(guard: set<(string, string)>, w: string, c: Option<string>): set<(string, string)> {
    if c.Some? then guard - {(w, c.value)} else guard
  }

  /** commitMappingQ and the guard key it frees. */
  function CommitTo(s: Tabs, t: Tab, c: string): Tabs {
    s.(rows := s.rows[t := Mapping(c, None)], guard := Unguard(s.guard, t.0, Clears(PendingOf(s, t))))
  }

  /** Moving tab `t` to `c` now would lose a session with a transcript for one without. */
  predicate MustPark(s: Tabs, t: Tab, c: string) {
    t in s.rows && s.rows[t].committed in s.known && s.rows[t].committed != c && c !in s.known
  }

  function Park(s: Tabs, t: Tab, c: string): Tabs
    requires t in s.rows
  {
    var p := Clears(s.rows[t].pending);
    s.(rows := s.rows[t := s.rows[t].(pending := Some(c))],
       guard := Unguard(s.guard, t.0, if p == Some(c) then None else p) + {(t.0, c)})
  }

  function Record(s: Tabs, t: Tab, c: string): Tabs {
    if MustPark(s, t, c) then Park(s, t, c) else CommitTo(s, t, c)
  }

  /** The guard after a rolled-back record or learn: freed keys come back, an added key may stay. */
  predicate RolledBack(s: Tabs, s': Tabs) {
    s'.known == s.known && s'.rows == s.rows && s.guard <= s'.guard
  }

  function Promoted(rows: map<Tab, Mapping>, w: string, c: string): map<Tab, Mapping> {
    map t | t in rows :: if t.0 == w && rows[t].pending == Some(c) then Mapping(c, None) else rows[t]
  }

  /** A committed ingest chunk of session `c` with at least one well-formed line. */
  function Ingested(s: Tabs, w: string, c: string): Tabs {
    if (w, c) in s.guard
    then Tabs(s.known + {c}, Promoted(s.rows, w, c), s.guard - {(w, c)})
    else s.(known := s.known + {c})
  }

  function Deleted(s: Tabs, c: string): Tabs {
    s.(known := s.known - {c}, rows := map t | t in s.rows && s.rows[t].committed != c :: s.rows[t])
  }

  /** rehydratePendingClaudeIds on open. */
  function Rehydrated(s: Tabs): Tabs {
    s.(guard := set t | t in s.rows && s.rows[t].pending.Some? :: (t.0, s.rows[t].pending.value))
  }

  datatype Op =
    | DoRecord(t: Tab, c: string)
    | DoLearn(t: Tab, c: string)
    | DoIngest(w: string, c: string)
    | DoDelete(c: string)
    | DoRollBack(leftover: set<(string, string)>)   // a failed transaction: at most extra guard keys remain
    | DoRestart

  function Apply(s: Tabs, op: Op): Tabs {
    match op
    case DoRecord(t, c) => Record(s, t, c)
    case DoLearn(t, c) => CommitTo(s, t, c)
    case DoIngest(w, c) => Ingested(s, w, c)
    case DoDelete(c) => Deleted(s, c)
    case DoRollBack(leftover) => s.(guard := s.guard + leftover)
    case DoRestart => Rehydrated(s)
  }

  function Run(s: Tabs, ops: seq<Op>): Tabs
    decreases |ops|
  {
    if ops == [] then s else Apply(Run(s, ops[..|ops| - 1]), ops[|ops| - 1])
  }

  // ---------------------------------------------------------------- a tab never goes dark

  predicate Lit(s: Tabs, t: Tab) { t in s.rows && s.rows[t].committed in s.known }

  predicate KeepsRow(s: Tabs, ops: seq<Op>, t: Tab) {
    forall i :: 0 <= i <= |ops| ==> t in Run(s, ops[..i]).rows
  }

  lemma StepKeepsLit(s: Tabs, op: Op, t: Tab)
    requires Lit(s, t) && !op.DoLearn?
    ensures t in Apply(s, op).rows ==> Lit(Apply(s, op), t)
    ensures t !in Apply(s, op).rows ==> op == DoDelete(s.rows[t].committed)
  {
  }

  /**
   * Once a tab shows a session that has a transcript, it always shows one that has, over every
   * run of signals, ingests, deletes, rollbacks and restarts that does not delete its row.
   */
  lemma {:induction false} NeverDark(s: Tabs, ops: seq<Op>, t: Tab)
    requires Lit(s, t) && KeepsRow(s, ops, t)
    requires forall i :: 0 <= i < |ops| ==> !ops[i].DoLearn?
    ensures Lit(Run(s, ops), t)
    decreases |ops|
  {
    if ops != [] {
      var front := ops[..|ops| - 1];
      forall i | 0 <= i <= |front|
        ensures t in Run(s, front[..i]).rows
      {
        assert front[..i] == ops[..i];
      }
      NeverDark(s, front, t);
      assert ops[..|ops|] == ops;
      StepKeepsLit(Run(s, front), ops[|ops| - 1], t);
    }
  }

  // ---------------------------------------------------------------- the guard covers every parked row

  ghost predicate Covered(s: Tabs) {
    forall t :: t in s.rows && s.rows[t].pending.Some? ==> (t.0, s.rows[t].pending.value) in s.guard
  }

  /** No two tabs of a workspace wait for the same session. */
  ghost predicate Unshared(s: Tabs) {
    forall t, u :: t in s.rows && u in s.rows && t != u && t.0 == u.0 && s.rows[t].pending.Some?
      ==> s.rows[t].pending != s.rows[u].pending
  }

  /** The parked id this operation frees for tab `op.t`, if it frees one. */
  function Frees(s: Tabs, op: Op): Option<string> {
    match op
    case DoRecord(t, c) =>
      if MustPark(s, t, c) && PendingOf(s, t) == Some(c) then None else Clears(PendingOf(s, t))
    case DoLearn(t, _) => Clears(PendingOf(s, t))
    case _ => None
  }

  /** Another tab of the workspace waits for the very id whose guard key the operation drops. */
  predicate Strands(s: Tabs, op: Op) {
    && (op.DoRecord? || op.DoLearn?)
    && Frees(s, op).Some?
    && exists u :: u in s.rows && u != op.t && u.0 == op.t.0 && s.rows[u].pending == Frees(s, op)
  }

  /** Exactly when an operation loses track of a parked row. */
  lemma GuardLossExactly(s: Tabs, op: Op)
    requires Covered(s)
    ensures Covered(Apply(s, op)) <==> !Strands(s, op)
  {
    var s' := Apply(s, op);
    if Strands(s, op) {
      var u :| u in s.rows && u != op.t && u.0 == op.t.0 && s.rows[u].pending == Frees(s, op);
      assert u in s'.rows && s'.rows[u] == s.rows[u];
      assert (u.0, s.rows[u].pending.value) !in s'.guard;
    } else {
      forall t | t in s'.rows && s'.rows[t].pending.Some?
        ensures (t.0, s'.rows[t].pending.value) in s'.guard
      {
        assert t in s.rows;
      }
    }
  }

  /** Covered after every prefix of the run. */
  ghost predicate AlwaysCovered(s: Tabs, ops: seq<Op>)
    decreases |ops|
  {
    Covered(Run(s, ops)) && (ops != [] ==> AlwaysCovered(s, ops[..|ops| - 1]))
  }

  /** No operation of the run strands a row. */
  ghost predicate NeverStrands(s: Tabs, ops: seq<Op>)
    decreases |ops|
  {
    ops != [] ==> NeverStrands(s, ops[..|ops| - 1]) && !Strands(Run(s, ops[..|ops| - 1]), ops[|ops| - 1])
  }

  /** Exactly which runs never lose track of a parked row. */
  lemma {:induction false} GuardExactly(s: Tabs, ops: seq<Op>)
    requires Covered(s)
    ensures AlwaysCovered(s, ops) <==> NeverStrands(s, ops)
    decreases |ops|
  {
    if ops != [] {
      var front := ops[..|ops| - 1];
      GuardExactly(s, front);
      if Covered(Run(s, front)) { GuardLossExactly(Run(s, front), ops[|ops| - 1]); }
    }
  }

  /** Before every operation of the run, no two tabs of a workspace share a parked id. */
  ghost predicate AlwaysUnshared(s: Tabs, ops: seq<Op>)
    decreases |ops|
  {
    ops != [] ==> AlwaysUnshared(s, ops[..|ops| - 1]) && Unshared(Run(s, ops[..|ops| - 1]))
  }

  /** Then nothing is lost. */
  lemma GuardCoversParked(ops: seq<Op>)
    requires AlwaysUnshared(NoTabs, ops)
    ensures AlwaysCovered(NoTabs, ops)
  {
    UnsharedNeverStrands(NoTabs, ops);
    GuardExactly(NoTabs, ops);
  }

  lemma {:induction false} UnsharedNeverStrands(s: Tabs, ops: seq<Op>)
    requires AlwaysUnshared(s, ops)
    ensures NeverStrands(s, ops)
    decreases |ops|
  {
    if ops != [] {
      UnsharedNeverStrands(s, ops[..|ops| - 1]);
      UnsharedStrandsNothing(Run(s, ops[..|ops| - 1]), ops[|ops| - 1]);
    }
  }

  lemma UnsharedStrandsNothing(s: Tabs, op: Op)
    requires Unshared(s)
    ensures !Strands(s, op)
  {
  }

  /** With the guard in place the first well-formed line of a session moves every tab waiting for it. */
  lemma FirstLinePromotes(s: Tabs, t: Tab, c: string)
    requires Covered(s) && Parked(s, t, c)
    ensures var s' := Ingested(s, t.0, c); s'.rows[t] == Mapping(c, None) && Lit(s', t)
    ensures forall u, d :: Parked(Ingested(s, t.0, c), u, d) ==> Parked(s, u, d) && (u.0, d) != (t.0, c)
  {
  }

  /** Nothing will find the parked row of `b`: its key is gone. */
  predicate Stranded(s: Tabs, b: Tab, x: string) { Parked(s, b, x) && (b.0, x) !in s.guard }

  /** Two tabs of a workspace wait for one session; moving the first on strands the second. */
  lemma MoveStrands(s: Tabs, a: Tab, b: Tab, x: string, y: string)
    requires a.0 == b.0 && a != b && x != y && x != "" && Parked(s, a, x) && Parked(s, b, x) && MustPark(s, a, y)
    ensures Stranded(Apply(s, DoRecord(a, y)), b, x)
  {
  }

  /** What can bring the key back, or move `b` itself. */
  predicate Rescues(s: Tabs, op: Op, b: Tab, x: string) {
    match op
    case DoRecord(t, c) => t == b || (t.0 == b.0 && c == x && MustPark(s, t, x))
    case DoLearn(t, _) => t == b
    case DoDelete(c) => b in s.rows && s.rows[b].committed == c
    case DoRollBack(leftover) => (b.0, x) in leftover
    case DoRestart => true
    case DoIngest(_, _) => false
  }

  lemma StepStaysStranded(s: Tabs, op: Op, b: Tab, x: string)
    requires Stranded(s, b, x) && !Rescues(s, op, b, x)
    ensures Stranded(Apply(s, op), b, x) && Apply(s, op).rows[b] == s.rows[b]
  {
  }

  ghost predicate Unrescued(s: Tabs, ops: seq<Op>, b: Tab, x: string) {
    forall i :: 0 <= i < |ops| ==> !Rescues(Run(s, ops[..i]), ops[i], b, x)
  }

  /** Nothing else does, over every run: ingesting the session, however often, leaves the tab where it was. */
  lemma {:induction false} StaysStranded(s: Tabs, ops: seq<Op>, b: Tab, x: string)
    requires Stranded(s, b, x) && Unrescued(s, ops, b, x)
    ensures Stranded(Run(s, ops), b, x) && Run(s, ops).rows[b] == s.rows[b]
    decreases |ops|
  {
    if ops != [] {
      var front := ops[..|ops| - 1];
      forall i | 0 <= i < |front| ensures !Rescues(Run(s, front[..i]), front[i], b, x) {
        assert front[..i] == ops[..i] && front[i] == ops[i];
      }
      StaysStranded(s, front, b, x);
      StepStaysStranded(Run(s, front), ops[|ops| - 1], b, x);
    }
  }

  /** A restart does: the rebuilt guard has the key, and the next line of the session moves the tab. */
  lemma RestartRescues(s: Tabs, b: Tab, x: string)
    requires Parked(s, b, x)
    ensures Apply(Apply(s, DoRestart), DoIngest(b.0, x)).rows[b] == Mapping(x, None)
  {
  }

  lemma RunSnoc(s: Tabs, ops: seq<Op>, op: Op)
    ensures Run(s, ops + [op]) == Apply(Run(s, ops), op)
  {
    assert (ops + [op])[..|ops|] == ops;
  }

  /** Such a state is reached by six ordinary operations. */
  lemma SharedParkingReached(w: string, i: string, j: string, c: string, d: string, x: string, y: string) returns (ops: seq<Op>)
    requires i != j && c != d && x != y && c != x && c != y && d != x && d != y
    ensures var s := Run(NoTabs, ops);
      Parked(s, (w, i), x) && Parked(s, (w, j), x) && MustPark(s, (w, i), y)
  {
    var a, b := (w, i), (w, j);
    ops := [DoIngest(w, c)];
    RunSnoc(NoTabs, [], DoIngest(w, c));
    assert [] + ops == ops;
    assert Run(NoTabs, ops) == Tabs({c}, map[], {});
    RunSnoc(NoTabs, ops, DoIngest(w, d));
    ops := ops + [DoIngest(w, d)];
    assert Run(NoTabs, ops) == Tabs({c, d}, map[], {});
    RunSnoc(NoTabs, ops, DoRecord(a, c));
    ops := ops + [DoRecord(a, c)];
    RunSnoc(NoTabs, ops, DoRecord(b, d));
    ops := ops + [DoRecord(b, d)];
    assert Run(NoTabs, ops) == Tabs({c, d}, map[a := Mapping(c, None), b := Mapping(d, None)], {});
    RunSnoc(NoTabs, ops, DoRecord(a, x));
    ops := ops + [DoRecord(a, x)];
    RunSnoc(NoTabs, ops, DoRecord(b, x));
    ops := ops + [DoRecord(b, x)];
  }

  // ---------------------------------------------------------------- what a signal does

  /**
   * A signal is followed at once if the tab is new, shows nothing real, shows that session already, or the
   * session has a transcript; otherwise the tab keeps what it shows and waits. No other tab changes.
   */
  lemma RecordExactly(s: Tabs, t: Tab, c: string)
    ensures var s' := Apply(s, DoRecord(t, c));
      && s'.known == s.known && s'.rows.Keys == s.rows.Keys + {t}
      && (forall u :: u in s.rows && u != t ==> s'.rows[u] == s.rows[u])
      && (t !in s.rows || s.rows[t].committed !in s.known || s.rows[t].committed == c || c in s.known ==>
            s'.rows[t] == Mapping(c, None))
      && (t in s.rows && s.rows[t].committed in s.known && s.rows[t].committed != c && c !in s.known ==>
            s'.rows[t] == Mapping(s.rows[t].committed, Some(c)) && (t.0, c) in s'.guard)
  {
  }

  lemma LearnExactly(s: Tabs, t: Tab, c: string)
    ensures var s' := Apply(s, DoLearn(t, c)); s'.known == s.known && s'.rows == s.rows[t := Mapping(c, None)]
  {
  }

  /** A session that is deleted takes the tabs that show it with it, and no other row. */
  lemma DeleteExactly(s: Tabs, c: string)
    ensures var s' := Apply(s, DoDelete(c));
      && (forall x :: x in s'.known <==> x in s.known && x != c)
      && (forall t :: t in s'.rows <==> t in s.rows && s.rows[t].committed != c)
      && (forall t :: t in s'.rows ==> s'.rows[t] == s.rows[t])
  {
  }

  /** An ingest makes its session real, and commits exactly the tabs of its workspace that wait for it, if the guard has its key. */
  lemma IngestExactly(s: Tabs, w: string, c: string)
    ensures var s' := Apply(s, DoIngest(w, c));
      && (forall x :: x in s'.known <==> x in s.known || x == c) && s'.rows.Keys == s.rows.Keys
      && (forall t :: t in s.rows ==>
            s'.rows[t] == if (w, c) in s.guard && t.0 == w && s.rows[t].pending == Some(c) then Mapping(c, None) else s.rows[t])
  {
  }

  /** The tab shows `c`, or waits for it where ingest will find it. */
  predicate Follows(s: Tabs, t: Tab, c: string) {
    t in s.rows && (s.rows[t] == Mapping(c, None) || (s.rows[t].pending == Some(c) && (t.0, c) in s.guard))
  }

  /** What can turn the tab away from `c`: another signal for it, a delete of what it shows, or losing the key to another tab. */
  predicate Diverts(s: Tabs, op: Op, t: Tab, c: string) {
    match op
    case DoRecord(u, d) => u == t || (u.0 == t.0 && Frees(s, op) == Some(c))
    case DoLearn(u, d) => u == t || (u.0 == t.0 && Frees(s, op) == Some(c))
    case DoDelete(d) => t in s.rows && s.rows[t].committed == d
    case _ => false
  }

  lemma StepFollows(s: Tabs, op: Op, t: Tab, c: string)
    requires Follows(s, t, c) && !Diverts(s, op, t, c)
    ensures Follows(Apply(s, op), t, c)
    ensures op == DoIngest(t.0, c) || s.rows[t] == Mapping(c, None) ==> Apply(s, op).rows[t] == Mapping(c, None)
  {
  }

  predicate Undiverted(s: Tabs, ops: seq<Op>, t: Tab, c: string)
    decreases |ops|
  {
    ops != [] ==> Undiverted(s, ops[..|ops| - 1], t, c) && !Diverts(Run(s, ops[..|ops| - 1]), ops[|ops| - 1], t, c)
  }

  /** Over every run that does not divert it, a tab follows its last signal, and shows the session once it has been ingested. */
  lemma {:induction false} SignalIsFollowed(s: Tabs, t: Tab, c: string, ops: seq<Op>)
    requires Follows(s, t, c) && Undiverted(s, ops, t, c)
    ensures Follows(Run(s, ops), t, c)
    ensures DoIngest(t.0, c) in ops ==> Run(s, ops).rows[t] == Mapping(c, None)
    decreases |ops|
  {
    if ops != [] {
      var front, op := ops[..|ops| - 1], ops[|ops| - 1];
      SignalIsFollowed(s, t, c, front);
      StepFollows(Run(s, front), op, t, c);
      assert ops == front + [op];
    }
  }

  /** Every signal starts like that. */
  lemma SignalFollows(s: Tabs, t: Tab, c: string)
    ensures Follows(Apply(s, DoRecord(t, c)), t, c)
  {
  }
}
