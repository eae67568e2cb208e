/**
 * Many managers, one lease row: the transition system behind src/host/lease.ts and
 * src/host/pgLease.ts. A store transaction is one step; a call may be executed late,
 * answered late, or never; fenced transactions stay open across steps.
 */
module LeaseProtocol {
  import opened Prelude
  import opened LeaseStore
  import opened LeaseManagers

  /** A process: its manager and the offset of its monotonic clock from the database clock. */
  datatype Proc = Proc(g: Mgr, off: real)

  datatype Call = Call(p: Pid, ask: Ask, answer: Option<Answer>)

  /** A fenced transaction holds the row FOR KEY SHARE until it ends. */
  datatype Tx = Tx(p: Pid, e: nat, open: bool)

  datatype Mark =
    | TookOver(p: Pid, e: nat)      // the store granted epoch e
    | Wrote(p: Pid, e: nat)         // a fenced transaction of epoch e committed

  datatype Sys = Sys(now: real, row: Row, procs: map<Pid, Proc>, calls: seq<Call>, txs: seq<Tx>, log: seq<Mark>)

  datatype Event =
    | Spawn(p: Pid, ttl: real, renew: real, off: real)
    | Elapse(d: real)
    | RunTick(p: Pid)
    | Exec(c: nat)
    | Deliver(p: Pid)
    | Fail(p: Pid, timedOut: bool)
    | Timer(p: Pid)
    | GiveUp(p: Pid, why: LostReason)
    | Stop(p: Pid)
    | StopWaited(p: Pid)
    | BeginTx(p: Pid, mine: nat)
    | EndTx(i: nat, commit: bool)

  const Init: Sys := Sys(0.0, NoRow, map[], [], [], [])

  predicate RowLocked(s: Sys) { exists i :: 0 <= i < |s.txs| && s.txs[i].open }

  function Mono(s: Sys, p: Pid): real
    requires p in s.procs
  {
    s.now + s.procs[p].off
  }

  /** Does process `p` currently answer 'holder'? */
  predicate Holds(s: Sys, p: Pid) {
    p in s.procs && StateAt(s.procs[p].g, Mono(s, p)) == Holder
  }

  /** Store the manager's new value and send what it asked for. */
  function Put(s: Sys, p: Pid, r: (Mgr, Option<Ask>)): Sys
    requires p in s.procs
  {
    s.(procs := s.procs[p := s.procs[p].(g := r.0)],
       calls := if r.1.Some? then s.calls + [Call(p, r.1.value, None)] else s.calls)
  }

  /** The store runs call `c` at DB time `now`. */
  function Execute(s: Sys, c: nat): Sys
    requires c < |s.calls| && s.calls[c].p in s.procs
  {
    var call := s.calls[c];
    var ttl := s.procs[call.p].g.ttl;
    match call.ask
    case AskAcquire =>
      var r := TryAcquire(s.row, call.p, s.now, ttl);
      s.(row := r.0,
         calls := s.calls[c := call.(answer := Some(if r.1.Some? then Granted(r.1.value) else Refused))],
         log := if r.1.Some? then s.log + [TookOver(call.p, r.1.value)] else s.log)
    case AskRenew(e) =>
      var r := Renew(s.row, call.p, e, s.now, ttl);
      s.(row := r.0, calls := s.calls[c := call.(answer := Some(Renewed(r.1)))])
    case AskRelease(e) =>
      s.(row := Release(s.row, call.p, e, s.now), calls := s.calls[c := call.(answer := Some(Freed))])
  }

  predicate Awaits(s: Sys, p: Pid) {
    p in s.procs && s.procs[p].g.phase != Idle && s.procs[p].g.phase.call < |s.calls|
  }

  /** The input by which an event reaches process `ev.p`, if it can happen now. */
  function Stimulus(s: Sys, ev: Event): Option<Input>
    requires !ev.Elapse? && !ev.Exec? && !ev.EndTx? && ev.p in s.procs
  {
    var g, mono := s.procs[ev.p].g, Mono(s, ev.p);
    match ev
    case RunTick(_) => Some(Tick(mono, |s.calls|))
    case Deliver(_) =>
      if !Awaits(s, ev.p) || s.calls[g.phase.call].answer == None then None
      else Some(Answered(s.calls[g.phase.call].answer.value, |s.calls|))
    case Fail(_, timedOut) => if Awaits(s, ev.p) then Some(Rejected(mono, timedOut)) else None
    case Timer(_) => Some(DeadlineTimer(mono))
    case GiveUp(_, why) => Some(MarkLost(why))
    case Stop(_) => Some(StopCalled)
    case StopWaited(_) => Some(StopResumed)
    case _ => None
  }

  /** One event; an event that cannot happen in `s` changes nothing. */
  function Step(s: Sys, ev: Event): Sys {
    match ev
    case Spawn(p, ttl, renew, off) =>
      if p in s.procs || renew >= ttl then s else s.(procs := s.procs[p := Proc(Fresh(ttl, renew), off)])
    case Elapse(d) => if d < 0.0 then s else s.(now := s.now + d)
    case Exec(c) =>
      if c >= |s.calls| || s.calls[c].answer.Some? || s.calls[c].p !in s.procs then s
      else if RowLocked(s) && !s.calls[c].ask.AskRenew? then s
      else Execute(s, c)
    case BeginTx(p, mine) =>
      if FencePasses(s.row, p, mine, s.now) then s.(txs := s.txs + [Tx(p, mine, true)]) else s
    case EndTx(i, commit) =>
      if i >= |s.txs| || !s.txs[i].open then s
      else s.(txs := s.txs[i := s.txs[i].(open := false)],
              log := if commit then s.log + [Wrote(s.txs[i].p, s.txs[i].e)] else s.log)
    case _ =>
      if ev.p !in s.procs || Stimulus(s, ev) == None then s
      else Put(s, ev.p, React(s.procs[ev.p].g, Stimulus(s, ev).value))
  }

  function Run(s: Sys, evs: seq<Event>): Sys
    decreases |evs|
  {
    if evs == [] then s else Step(Run(s, evs[..|evs| - 1]), evs[|evs| - 1])
  }

  // ---------------------------------------------------------------- mutual exclusion in time

  /** The row protects `p` up to DB time `until`: it names `p` and does not expire before. */
  predicate Protects(s: Sys, p: Pid, until: real) {
    s.now < until ==> s.row.HeldBy(p) && s.row.expires >= until
  }

  /** The store has answered yes and the manager is about to act on it. */
  predicate Won(s: Sys, g: Mgr) {
    && g.phase != Idle && g.phase.call < |s.calls| && s.calls[g.phase.call].answer.Some?
    && var a := s.calls[g.phase.call].answer.value;
    || (g.phase.AwaitAcquire? && !g.stopped && a.Granted?)
    || (g.phase.AwaitRenew? && g.state == Holder && a == Renewed(true))
  }

  predicate ProcOk(s: Sys, p: Pid)
    requires p in s.procs
  {
    var g, off := s.procs[p].g, s.procs[p].off;
    && 0.0 <= g.renew < g.ttl
    && Shape(g)
    && (g.phase.AwaitAcquire? || g.phase.AwaitRenew? ==> g.phase.m - off <= s.now)
    && (g.phase != Idle ==> g.phase.call < |s.calls| && s.calls[g.phase.call].p == p)
    && (g.phase.AwaitAcquire? ==> s.calls[g.phase.call].ask == AskAcquire)
    && (g.phase.AwaitRenew? ==> s.calls[g.phase.call].ask.AskRenew?)
    // the margin: the local deadline is `renew` short of what the row guarantees
    && (g.state == Holder ==> Protects(s, p, g.deadline - off + g.renew))
    && (Won(s, g) ==> Protects(s, p, g.phase.m - off + g.ttl))
  }

  predicate CallOk(s: Sys, c: Call) {
    && c.p in s.procs
    && (c.ask.AskRelease? ==> s.procs[c.p].g.stopped && s.procs[c.p].g.state == Standby)
    && (c.ask == AskAcquire && c.answer.Some? ==> c.answer.value.Granted? || c.answer.value.Refused?)
    && (c.ask.AskRenew? && c.answer.Some? ==> c.answer.value.Renewed?)
  }

  ghost predicate Safe(s: Sys) {
    && (forall p :: p in s.procs ==> ProcOk(s, p))
    && (forall i :: 0 <= i < |s.calls| ==> CallOk(s, s.calls[i]))
    && (s.row.Row? && s.row.holder.Some? ==>
          s.row.holder.value in s.procs && s.row.expires <= s.now + s.procs[s.row.holder.value].g.ttl)
  }

  predicate NonNegativeRenew(evs: seq<Event>) {
    forall i :: 0 <= i < |evs| && evs[i].Spawn? ==> 0.0 <= evs[i].renew
  }

  /** What a reaction does to the manager itself. */
  lemma PutKeepsSelf(s: Sys, p: Pid, i: Input)
    requires p in s.procs && ProcOk(s, p)
    requires i.Tick? ==> i.mono == Mono(s, p) && i.call == |s.calls|
    requires i.Answered? ==> i.call == |s.calls| && s.procs[p].g.phase != Idle
                             && s.calls[s.procs[p].g.phase.call].answer == Some(i.a)
    ensures ProcOk(Put(s, p, React(s.procs[p].g, i)), p)
  {
    ReactKeepsShape(s.procs[p].g, i);
  }

  /** ... and to the calls: only a halted standby process asks for a release. */
  lemma ReactAsks(g: Mgr, i: Input)
    requires Shape(g)
    ensures var r := React(g, i);
      && (g.stopped && g.state == Standby ==> r.0.stopped && r.0.state == Standby)
      && (r.1.Some? && r.1.value.AskRelease? ==> r.0.stopped && r.0.state == Standby)
      && r.0.ttl == g.ttl && r.0.renew == g.renew
  {
  }

  lemma PutKeepsSafe(s: Sys, p: Pid, i: Input)
    requires Safe(s) && p in s.procs
    requires i.Tick? ==> i.mono == Mono(s, p) && i.call == |s.calls|
    requires i.Answered? ==> i.call == |s.calls| && s.procs[p].g.phase != Idle
                             && s.calls[s.procs[p].g.phase.call].answer == Some(i.a)
    ensures Safe(Put(s, p, React(s.procs[p].g, i)))
  {
    var r := React(s.procs[p].g, i);
    PutKeepsSelf(s, p, i);
    ReactAsks(s.procs[p].g, i);
    PutKeepsRest(s, p, r);
  }

  lemma PutKeepsRest(s: Sys, p: Pid, r: (Mgr, Option<Ask>))
    requires Safe(s) && p in s.procs
    requires ProcOk(Put(s, p, r), p)
    requires var g := s.procs[p].g;
      && (g.stopped && g.state == Standby ==> r.0.stopped && r.0.state == Standby)
      && (r.1.Some? && r.1.value.AskRelease? ==> r.0.stopped && r.0.state == Standby)
      && r.0.ttl == g.ttl && r.0.renew == g.renew
    ensures Safe(Put(s, p, r))
  {
    var s' := Put(s, p, r);
    forall q | q in s'.procs
      ensures ProcOk(s', q)
    {
      assert ProcOk(s, q);
    }
    forall c | 0 <= c < |s'.calls|
      ensures CallOk(s', s'.calls[c])
    {
      if c < |s.calls| {
        assert CallOk(s, s.calls[c]);
      }
    }
  }

  /** Executing a call of `p` never takes away what another process is relying on. */
  lemma ExecKeepsProc(s: Sys, c: nat, q: Pid)
    requires c < |s.calls| && s.calls[c].p in s.procs && s.calls[c].answer == None && q in s.procs
    requires ProcOk(s, q) && CallOk(s, s.calls[c])
    requires s.row.HeldBy(s.calls[c].p) ==> s.row.expires <= s.now + s.procs[s.calls[c].p].g.ttl
    ensures ProcOk(Execute(s, c), q)
  {
    var s', g, off := Execute(s, c), s.procs[q].g, s.procs[q].off;
    ExecKeepsProtection(s, c, q, g.deadline - off + g.renew);
    if g.phase != Idle {
      if g.phase.call != c {
        assert s'.calls[g.phase.call] == s.calls[g.phase.call];
        if Won(s, g) {
          ExecKeepsProtection(s, c, q, g.phase.m - off + g.ttl);
        }
      }
    }
  }

  /** A takeover waits for the expiry; the holder's own calls only move it forward; a release means the process has halted. */
  lemma ExecKeepsProtection(s: Sys, c: nat, q: Pid, until: real)
    requires c < |s.calls| && s.calls[c].p in s.procs && q in s.procs
    requires s.row.HeldBy(s.calls[c].p) ==> s.row.expires <= s.now + s.procs[s.calls[c].p].g.ttl
    requires CallOk(s, s.calls[c])
    ensures Protects(s, q, until) && !(s.procs[q].g.stopped && s.procs[q].g.state == Standby)
            ==> Protects(Execute(s, c), q, until)
  {
  }

  lemma ExecKeepsSafe(s: Sys, c: nat)
    requires Safe(s) && c < |s.calls| && s.calls[c].answer == None
    ensures s.calls[c].p in s.procs
    ensures Safe(Execute(s, c))
  {
    assert CallOk(s, s.calls[c]);
    var s' := Execute(s, c);
    forall q | q in s'.procs
      ensures ProcOk(s', q)
    {
      ExecKeepsProc(s, c, q);
    }
    forall i | 0 <= i < |s'.calls|
      ensures CallOk(s', s'.calls[i])
    {
      assert CallOk(s, s.calls[i]);
    }
    assert ProcOk(s, s.calls[c].p);
  }

  lemma ElapseKeepsSafe(s: Sys, d: real)
    requires Safe(s) && d >= 0.0
    ensures Safe(s.(now := s.now + d))
  {
    var s' := s.(now := s.now + d);
    forall q | q in s'.procs
      ensures ProcOk(s', q)
    {
      assert ProcOk(s, q);
    }
    forall i | 0 <= i < |s'.calls|
      ensures CallOk(s', s'.calls[i])
    {
      assert CallOk(s, s.calls[i]);
    }
  }

  /** Spawning a process and moving fenced transactions leave rows, calls and clocks alone. */
  lemma FrameKeepsSafe(s: Sys, s': Sys)
    requires Safe(s)
    requires s'.now == s.now && s'.row == s.row && s'.calls == s.calls
    requires forall p :: p in s.procs ==> p in s'.procs && s'.procs[p] == s.procs[p]
    requires forall p :: p in s'.procs && p !in s.procs ==>
      exists ttl, renew :: 0.0 <= renew < ttl && s'.procs[p].g == Fresh(ttl, renew)
    ensures Safe(s')
  {
    forall q | q in s'.procs
      ensures ProcOk(s', q)
    {
      if q in s.procs {
        assert ProcOk(s, q);
      }
    }
    forall i | 0 <= i < |s'.calls|
      ensures CallOk(s', s'.calls[i])
    {
      assert CallOk(s, s.calls[i]);
    }
  }

  lemma StepKeepsSafe(s: Sys, ev: Event)
    requires Safe(s)
    requires ev.Spawn? ==> 0.0 <= ev.renew
    ensures Safe(Step(s, ev))
  {
    match ev
    case Spawn(p, ttl, renew, off) => SpawnKeepsSafe(s, p, ttl, renew, off);
    case Elapse(d) => if d >= 0.0 { ElapseKeepsSafe(s, d); }
    case Exec(c) => if Step(s, ev) != s { ExecKeepsSafe(s, c); }
    case BeginTx(_, _) => FrameKeepsSafe(s, Step(s, ev));
    case EndTx(_, _) => FrameKeepsSafe(s, Step(s, ev));
    case _ => StimulusKeepsSafe(s, ev);
  }

  lemma SpawnKeepsSafe(s: Sys, p: Pid, ttl: real, renew: real, off: real)
    requires Safe(s) && 0.0 <= renew
    ensures Safe(Step(s, Spawn(p, ttl, renew, off)))
  {
    FrameKeepsSafe(s, Step(s, Spawn(p, ttl, renew, off)));
  }

  lemma StimulusKeepsSafe(s: Sys, ev: Event)
    requires Safe(s) && !ev.Spawn? && !ev.Elapse? && !ev.Exec? && !ev.BeginTx? && !ev.EndTx?
    ensures Safe(Step(s, ev))
  {
    if ev.p in s.procs && Stimulus(s, ev).Some? {
      PutKeepsSafe(s, ev.p, Stimulus(s, ev).value);
    }
  }

  lemma {:induction false} RunKeepsSafe(evs: seq<Event>)
    requires NonNegativeRenew(evs)
    ensures Safe(Run(Init, evs))
    decreases |evs|
  {
    if evs != [] {
      RunKeepsSafe(evs[..|evs| - 1]);
      StepKeepsSafe(Run(Init, evs[..|evs| - 1]), evs[|evs| - 1]);
    }
  }

  ghost predicate Exclusive(s: Sys) {
    forall p, q :: Holds(s, p) && Holds(s, q) ==> p == q
  }

  /** Whoever reads 'holder' is named by a row that stays valid for at least `renew` past its own deadline. */
  ghost predicate Margin(s: Sys) {
    forall p :: Holds(s, p) ==>
      s.row.HeldBy(p) && s.row.expires >= s.procs[p].g.deadline - s.procs[p].off + s.procs[p].g.renew
  }

  lemma MutualExclusion(evs: seq<Event>)
    requires NonNegativeRenew(evs)
    ensures Exclusive(Run(Init, evs)) && Margin(Run(Init, evs))
  {
    RunKeepsSafe(evs);
    var s := Run(Init, evs);
    forall p | Holds(s, p)
      ensures s.row.HeldBy(p) && s.row.expires >= s.procs[p].g.deadline - s.procs[p].off + s.procs[p].g.renew
    {
      assert ProcOk(s, p);
    }
  }

  // ---------------------------------------------------------------- fencing

  function LastGrant(log: seq<Mark>): Option<Mark>
    decreases |log|
  {
    if log == [] then None
    else if log[|log| - 1].TookOver? then Some(log[|log| - 1])
    else LastGrant(log[..|log| - 1])
  }

  /** Grants count up by one; a write carries the process and the epoch of the latest grant before it. */
  predicate Fenced(log: seq<Mark>)
    decreases |log|
  {
    log == [] ||
    var front, m := log[..|log| - 1], log[|log| - 1];
    && Fenced(front)
    && (m.TookOver? ==> m.e == (if LastGrant(front) == None then 1 else LastGrant(front).value.e + 1))
    && (m.Wrote? ==> LastGrant(front) == Some(TookOver(m.p, m.e)))
  }

  ghost predicate FenceOk(s: Sys) {
    && Fenced(s.log)
    && (s.row.NoRow? <==> LastGrant(s.log) == None)
    && (s.row.Row? ==> LastGrant(s.log).value.e == s.row.epoch
                       && (s.row.holder.Some? ==> LastGrant(s.log).value.p == s.row.holder.value))
    && (forall i :: 0 <= i < |s.txs| && s.txs[i].open ==> s.row.Owned(s.txs[i].p, s.txs[i].e))
  }

  lemma LastGrantIsGrant(log: seq<Mark>)
    ensures LastGrant(log).Some? ==> LastGrant(log).value.TookOver?
  {
  }

  /** A grant or release runs only while no fenced transaction is open. */
  lemma ExecKeepsFence(s: Sys, c: nat)
    requires FenceOk(s) && c < |s.calls| && s.calls[c].p in s.procs
    requires RowLocked(s) ==> s.calls[c].ask.AskRenew?
    ensures FenceOk(Execute(s, c))
  {
    var s' := Execute(s, c);
    LastGrantIsGrant(s.log);
    if s'.log != s.log {
      assert s'.log[..|s'.log| - 1] == s.log;
    }
  }

  lemma EndTxKeepsFence(s: Sys, i: nat, commit: bool)
    requires FenceOk(s)
    ensures FenceOk(Step(s, EndTx(i, commit)))
  {
    var s' := Step(s, EndTx(i, commit));
    LastGrantIsGrant(s.log);
    if s'.log != s.log {
      assert s'.log[..|s'.log| - 1] == s.log;
    }
  }

  lemma StepKeepsFence(s: Sys, ev: Event)
    requires FenceOk(s)
    ensures FenceOk(Step(s, ev))
  {
    match ev
    case Exec(c) => if Step(s, ev) != s { ExecKeepsFence(s, c); }
    case EndTx(i, commit) => EndTxKeepsFence(s, i, commit);
    case BeginTx(_, _) =>
    case _ => assert Step(s, ev).row == s.row && Step(s, ev).txs == s.txs && Step(s, ev).log == s.log;
  }

  lemma {:induction false} RunKeepsFence(evs: seq<Event>)
    ensures FenceOk(Run(Init, evs))
    decreases |evs|
  {
    if evs != [] {
      RunKeepsFence(evs[..|evs| - 1]);
      StepKeepsFence(Run(Init, evs[..|evs| - 1]), evs[|evs| - 1]);
    }
  }

  /** In a fenced log epochs never go down, and a write never follows a grant of a later epoch. */
  lemma {:induction false} FencedIsMonotone(log: seq<Mark>, i: nat, j: nat)
    requires Fenced(log) && i < j < |log|
    ensures log[i].e <= log[j].e
    ensures log[j].TookOver? ==> log[i].e < log[j].e
    ensures log[i].TookOver? && log[j].Wrote? && log[i].e == log[j].e ==> log[i].p == log[j].p
    decreases |log|
  {
    var front := log[..|log| - 1];
    if j < |log| - 1 {
      FencedIsMonotone(front, i, j);
    } else {
      FencedBelowLast(front, i);
    }
  }

  lemma {:induction false} FencedBelowLast(log: seq<Mark>, i: nat)
    requires Fenced(log) && i < |log|
    ensures LastGrant(log).Some? && log[i].e <= LastGrant(log).value.e
    ensures log[i].e == LastGrant(log).value.e ==> log[i].p == LastGrant(log).value.p
    decreases |log|
  {
    var front := log[..|log| - 1];
    if i < |log| - 1 {
      FencedBelowLast(front, i);
    }
  }

  /** Safety of fenced writes over every run, whatever the clocks and configurations are. */
  lemma FencedWrites(evs: seq<Event>, i: nat, j: nat)
    requires i < j < |Run(Init, evs).log|
    ensures var log := Run(Init, evs).log;
      && log[i].e <= log[j].e
      && (log[j].TookOver? ==> log[i].e < log[j].e)
      && (log[i].TookOver? && log[j].Wrote? && log[i].e == log[j].e ==> log[i].p == log[j].p)
  {
    RunKeepsFence(evs);
    FencedIsMonotone(Run(Init, evs).log, i, j);
  }

  /** At its commit a fenced transaction still finds the row as it checked it, even past expiry. */
  lemma CommitSeesItsRow(evs: seq<Event>, i: nat)
    requires i < |Run(Init, evs).txs| && Run(Init, evs).txs[i].open
    ensures var s := Run(Init, evs); s.row.Owned(s.txs[i].p, s.txs[i].e)
  {
    RunKeepsFence(evs);
  }

  // ---------------------------------------------------------------- only a live lease may write

  /** At its begin a fenced transaction finds the row naming its process and epoch, and not expired. */
  predicate LiveBegin(evs: seq<Event>, k: nat, p: Pid, e: nat) {
    && k < |evs| && evs[k] == BeginTx(p, e)
    && var s := Run(Init, evs[..k]);
    s.row.Row? && s.row.holder == Some(p) && s.row.epoch == e && s.now < s.row.expires
  }

  lemma LiveBeginGrows(evs: seq<Event>, k: nat, p: Pid, e: nat)
    requires evs != [] && LiveBegin(evs[..|evs| - 1], k, p, e)
    ensures LiveBegin(evs, k, p, e)
  {
    assert evs[..|evs| - 1][..k] == evs[..k];
  }

  lemma {:induction false} TxBeganLive(evs: seq<Event>, i: nat) returns (k: nat)
    requires i < |Run(Init, evs).txs|
    ensures LiveBegin(evs, k, Run(Init, evs).txs[i].p, Run(Init, evs).txs[i].e)
    decreases |evs|
  {
    var front := evs[..|evs| - 1];
    var s := Run(Init, front);
    if i < |s.txs| {
      k := TxBeganLive(front, i);
      LiveBeginGrows(evs, k, s.txs[i].p, s.txs[i].e);
    } else {
      k := |evs| - 1;
      TxsGrow(s, evs[k]);
    }
  }

  /** Only a begin adds a transaction, and exactly on a live row of its own. */
  lemma TxsGrow(s: Sys, ev: Event)
    ensures |Step(s, ev).txs| > |s.txs| <==>
      ev.BeginTx? && s.row.Row? && s.row.holder == Some(ev.p) && s.row.epoch == ev.mine && s.now < s.row.expires
    ensures |Step(s, ev).txs| > |s.txs| ==> Step(s, ev).txs == s.txs + [Tx(ev.p, ev.mine, true)]
  {
  }

  /** So every committed write, in every run, was begun by the process and epoch of a row that had not expired. */
  lemma {:induction false} WritesBeganLive(evs: seq<Event>, j: nat) returns (k: nat)
    requires j < |Run(Init, evs).log| && Run(Init, evs).log[j].Wrote?
    ensures LiveBegin(evs, k, Run(Init, evs).log[j].p, Run(Init, evs).log[j].e)
    decreases |evs|
  {
    var front, ev := evs[..|evs| - 1], evs[|evs| - 1];
    var s := Run(Init, front);
    if j < |s.log| {
      LogGrows(s, ev);
      k := WritesBeganLive(front, j);
      LiveBeginGrows(evs, k, s.log[j].p, s.log[j].e);
    } else {
      assert ev.EndTx?;
      k := TxBeganLive(front, ev.i);
      LiveBeginGrows(evs, k, s.txs[ev.i].p, s.txs[ev.i].e);
    }
  }

  lemma LogGrows(s: Sys, ev: Event)
    ensures s.log <= Step(s, ev).log
  {
  }

  // ---------------------------------------------------------------- a holder that is answered in time stays one

  /** One renewal: after `wait`, a tick; the store runs it `x` later and the answer comes after `y` more. */
  datatype Round = Round(wait: real, x: real, y: real)

  predicate Prompt(s: Sys, p: Pid) {
    && p in s.procs && s.procs[p].g.state == Holder && s.procs[p].g.phase == Idle && !s.procs[p].g.stopped
    && s.row.Owned(p, s.procs[p].g.epoch)
  }

  function Renewal(s: Sys, p: Pid, r: Round): Sys {
    Step(Step(Step(Step(Step(Step(s, Elapse(r.wait)), RunTick(p)), Elapse(r.x)), Exec(|s.calls|)), Elapse(r.y)), Deliver(p))
  }

  lemma RenewalKeeps(s: Sys, p: Pid, r: Round)
    requires Prompt(s, p) && 0.0 <= r.wait && 0.0 <= r.x && 0.0 <= r.y && Mono(s, p) + r.wait < s.procs[p].g.deadline
    ensures var s' := Renewal(s, p, r);
      && Prompt(s', p) && s'.procs[p].off == s.procs[p].off && s'.now == s.now + r.wait + r.x + r.y
      && s'.procs[p].g == s.procs[p].g.(deadline := Mono(s, p) + r.wait + s.procs[p].g.ttl - s.procs[p].g.renew)
      && s'.row.expires == s.now + r.wait + r.x + s.procs[p].g.ttl
  {
    var c, g := |s.calls|, s.procs[p].g;
    var s1 := Step(s, Elapse(r.wait));
    var s2 := Step(s1, RunTick(p));
    assert s2.calls == s.calls + [Call(p, AskRenew(g.epoch), None)];
    assert s2.procs[p].g == g.(phase := AwaitRenew(Mono(s, p) + r.wait, c));
    var s3 := Step(s2, Elapse(r.x));
    var s4 := Step(s3, Exec(c));
    assert s4.calls[c].answer == Some(Renewed(true)) && s4.procs == s2.procs;
  }

  function Renewals(s: Sys, p: Pid, rs: seq<Round>): Sys
    decreases |rs|
  {
    if rs == [] then s else Renewal(Renewals(s, p, rs[..|rs| - 1]), p, rs[|rs| - 1])
  }

  /** Each tick comes before the deadline that the one before it set. */
  predicate InTime(rs: seq<Round>, slack: real) {
    && (forall i :: 0 <= i < |rs| ==> 0.0 <= rs[i].wait && 0.0 <= rs[i].x && 0.0 <= rs[i].y)
    && (forall i :: 1 <= i < |rs| ==> rs[i - 1].x + rs[i - 1].y + rs[i].wait < slack)
  }

  /** The same holder as in `s`, whose deadline was set `spent` ago. */
  predicate StillHolds(s: Sys, p: Pid, s': Sys, spent: real)
    requires p in s.procs
  {
    && Prompt(s', p)
    && s'.procs[p].g == s.procs[p].g.(deadline := Mono(s', p) - spent + s.procs[p].g.ttl - s.procs[p].g.renew)
  }

  lemma StillHoldsOn(s: Sys, p: Pid, m: Sys, spent: real, r: Round)
    requires p in s.procs && StillHolds(s, p, m, spent) && 0.0 <= r.wait && 0.0 <= r.x && 0.0 <= r.y
    requires spent + r.wait < s.procs[p].g.ttl - s.procs[p].g.renew
    ensures StillHolds(s, p, Renewal(m, p, r), r.x + r.y)
  {
    RenewalKeeps(m, p, r);
  }

  /** However many renewals: a holder whose ticks are answered in time stays holder under its epoch. */
  lemma {:induction false} AnsweredHolderStays(s: Sys, p: Pid, rs: seq<Round>)
    requires Prompt(s, p) && InTime(rs, s.procs[p].g.ttl - s.procs[p].g.renew)
    requires rs != [] && Mono(s, p) + rs[0].wait < s.procs[p].g.deadline
    ensures StillHolds(s, p, Renewals(s, p, rs), rs[|rs| - 1].x + rs[|rs| - 1].y)
    decreases |rs|
  {
    var n := |rs| - 1;
    if n == 0 {
      assert Renewals(s, p, rs[..0]) == s;
      RenewalKeeps(s, p, rs[0]);
    } else {
      AnsweredHolderStays(s, p, rs[..n]);
      StillHoldsOn(s, p, Renewals(s, p, rs[..n]), rs[n - 1].x + rs[n - 1].y, rs[n]);
    }
  }

  /** A stopped holder hands the row over: once its release has run, the next process need not wait for expiry. */
  lemma StopHandsOver(s: Sys, p: Pid, q: Pid)
    requires Prompt(s, p) && !RowLocked(s)
    ensures var s' := Step(Step(Step(s, Stop(p)), StopWaited(p)), Exec(|s.calls|));
      && !Holds(s', p) && Takeable(s'.row, q, s'.now) && s'.row.Row? && s'.row.epoch == s.row.epoch && s'.row.holder == None
  {
    var c, g := |s.calls|, s.procs[p].g;
    var s1 := Step(s, Stop(p));
    assert s1.procs[p].g == g.(stopped := true, stops := g.stops + 1) && s1.calls == s.calls;
    var s2 := Step(s1, StopWaited(p));
    assert s2.calls == s.calls + [Call(p, AskRelease(g.epoch), None)] && s2.procs[p].g.state == Standby;
    assert s2.txs == s.txs && s2.row == s.row;
  }

  // ---------------------------------------------------------------- the margin must not be negative

  /** Every spawned process uses this configuration. */
  predicate Uniform(evs: seq<Event>, ttl: real, renew: real) {
    forall i :: 0 <= i < |evs| && evs[i].Spawn? ==> evs[i].ttl == ttl && evs[i].renew == renew
  }

  ghost predicate Reachable(s: Sys, ttl: real, renew: real) {
    exists evs :: Uniform(evs, ttl, renew) && Run(Init, evs) == s
  }

  lemma ReachStep(s: Sys, ev: Event, ttl: real, renew: real)
    requires Reachable(s, ttl, renew)
    requires ev.Spawn? ==> ev.ttl == ttl && ev.renew == renew
    ensures Reachable(Step(s, ev), ttl, renew)
  {
    var evs :| Uniform(evs, ttl, renew) && Run(Init, evs) == s;
    assert (evs + [ev])[..|evs|] == evs;
    assert Uniform(evs + [ev], ttl, renew) && Run(Init, evs + [ev]) == Step(s, ev);
  }

  /** A fresh process that finds the row takeable becomes holder in three events. */
  lemma Wins(s: Sys, p: Pid, ttl: real, renew: real) returns (s': Sys)
    requires Reachable(s, ttl, renew) && renew < ttl
    requires p in s.procs && s.procs[p] == Proc(Fresh(ttl, renew), 0.0)
    requires Takeable(s.row, p, s.now) && s.txs == []
    ensures Reachable(s', ttl, renew) && s'.now == s.now && s'.txs == []
    ensures s'.row.Row? && s'.row.expires == s.now + ttl
    ensures s'.procs.Keys == s.procs.Keys && Holds(s', p)
    ensures s'.procs[p].g.deadline == s.now + ttl - renew && s'.procs[p].off == 0.0 && s'.procs[p].g.state == Holder
    ensures forall q :: q in s.procs && q != p ==> s'.procs[q] == s.procs[q]
  {
    var c := |s.calls|;
    var s1 := Step(s, RunTick(p));
    ReachStep(s, RunTick(p), ttl, renew);
    assert s1.calls[c] == Call(p, AskAcquire, None) && s1.procs[p].g.phase == AwaitAcquire(s.now, c);
    var s2 := Step(s1, Exec(c));
    ReachStep(s1, Exec(c), ttl, renew);
    assert s2.calls[c].answer.Some? && s2.calls[c].answer.value.Granted?;
    s' := Step(s2, Deliver(p));
    ReachStep(s2, Deliver(p), ttl, renew);
  }

  lemma NegativeRenewClashes(ttl: real, renew: real) returns (s: Sys)
    requires renew < ttl && renew < 0.0
    ensures Reachable(s, ttl, renew) && Holds(s, 0) && Holds(s, 1)
  {
    assert Uniform([], ttl, renew) && Run(Init, []) == Init;
    s := Step(Init, Spawn(0, ttl, renew, 0.0));
    ReachStep(Init, Spawn(0, ttl, renew, 0.0), ttl, renew);
    ReachStep(s, Spawn(1, ttl, renew, 0.0), ttl, renew);
    s := Step(s, Spawn(1, ttl, renew, 0.0));
    s := Wins(s, 0, ttl, renew);
    var wait := if ttl < 0.0 then 0.0 else ttl;
    ReachStep(s, Elapse(wait), ttl, renew);
    s := Step(s, Elapse(wait));
    s := Wins(s, 1, ttl, renew);
  }

  /** The constructor only demands renew < ttl; exclusion over every run needs exactly 0 <= renew on top. */
  lemma ExclusionNeedsMargin(ttl: real, renew: real)
    requires renew < ttl
    ensures 0.0 <= renew <==> (forall evs :: Uniform(evs, ttl, renew) ==> Exclusive(Run(Init, evs)))
  {
    if 0.0 <= renew {
      forall evs | Uniform(evs, ttl, renew)
        ensures Exclusive(Run(Init, evs))
      {
        MutualExclusion(evs);
      }
    } else {
      var s := NegativeRenewClashes(ttl, renew);
      assert !Exclusive(s);
    }
  }
}
