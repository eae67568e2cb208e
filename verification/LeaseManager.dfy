/**
 * One process's lease manager (src/host/lease.ts LeaseManager). Every stretch of code
 * between two awaits is one atomic operation on the manager.
 */
module LeaseManagers {
  import opened Prelude

  datatype LeaseState = Standby | Holder
  datatype LostReason = Superseded | Unreachable
  datatype Emitted = Acquired(epoch: nat) | Lost(reason: LostReason)

  /** What the manager asks of the store; `call` below names the pending promise. */
  datatype Ask = AskAcquire | AskRenew(e: nat) | AskRelease(e: nat)
  datatype Answer = Granted(e: nat) | Refused | Renewed(ok: bool) | Freed

  /** Where the shared in-flight step is suspended; `m` is the monotonic time read before the call. */
  datatype Phase =
    | Idle
    | AwaitAcquire(m: real, call: nat)
    | AwaitRenew(m: real, call: nat)
    | AwaitRelease(call: nat)

  datatype Mgr = Mgr(
    ttl: real, renew: real,
    state: LeaseState, epoch: nat, deadline: real, stopped: bool,
    phase: Phase, stops: nat, emitted: seq<Emitted>)

  function Fresh(ttl: real, renew: real): Mgr {
    Mgr(ttl, renew, Standby, 0, 0.0, false, Idle, 0, [])
  }

  /** The `state` getter: a holder past its deadline already reads as standby. */
  function StateAt(g: Mgr, mono: real): LeaseState {
    if g.state == Holder && mono >= g.deadline then Standby else g.state
  }

  function Extend(g: Mgr, from: real): Mgr { g.(deadline := from + g.ttl - g.renew) }

  function Lose(g: Mgr, why: LostReason): Mgr {
    if g.state != Holder then g
    else g.(state := Standby, stopped := true, emitted := g.emitted + [Lost(why)])
  }

  /** tick/step up to the first await. */
  function BeginTick(g: Mgr, mono: real, call: nat): (Mgr, Option<Ask>) {
    if g.phase != Idle || g.stopped then (g, None)
    else if g.state == Standby then (g.(phase := AwaitAcquire(mono, call)), Some(AskAcquire))
    else if mono >= g.deadline then (Lose(g, Unreachable), None)
    else (g.(phase := AwaitRenew(mono, call)), Some(AskRenew(g.epoch)))
  }

  /** The awaited store call resolves with `a`. */
  function OnAnswer(g: Mgr, a: Answer, call: nat): (Mgr, Option<Ask>) {
    match g.phase
    case AwaitAcquire(m, _) =>
      if !a.Granted? then (g.(phase := Idle), None)
      else if g.stopped then (g.(phase := AwaitRelease(call)), Some(AskRelease(a.e)))
      else (Extend(g.(phase := Idle, state := Holder, epoch := a.e, emitted := g.emitted + [Acquired(a.e)]), m), None)
    case AwaitRenew(m, _) =>
      if a == Renewed(true) then
        (if g.state == Holder && !g.stopped then Extend(g.(phase := Idle), m) else g.(phase := Idle), None)
      else (Lose(g.(phase := Idle), Superseded), None)
    case AwaitRelease(_) => (g.(phase := Idle), None)
    case Idle => (g, None)
  }

  /** The awaited store call rejects, or its time bound runs out. */
  function OnReject(g: Mgr, mono: real, timedOut: bool): Mgr {
    var g' := g.(phase := Idle);
    if g.phase == Idle then g
    else if !g.phase.AwaitRelease? && g.state == Holder && (timedOut || mono >= g.deadline) then Lose(g', Unreachable)
    else g'
  }

  function OnDeadline(g: Mgr, mono: real): Mgr {
    if g.state != Holder || g.stopped || mono < g.deadline then g else Lose(g, Unreachable)
  }

  function BeginStop(g: Mgr): Mgr { g.(stopped := true, stops := g.stops + 1) }

  /** stop() once the in-flight step settled or its wait ran out. */
  function EndStop(g: Mgr): (Mgr, Option<Ask>) {
    if g.stops == 0 then (g, None)
    else (g.(state := Standby, stops := g.stops - 1), if g.state == Holder then Some(AskRelease(g.epoch)) else None)
  }

  // ----- run shape of one manager

  datatype Input =
    | Tick(mono: real, call: nat)
    | Answered(a: Answer, call: nat)
    | Rejected(mono: real, timedOut: bool)
    | DeadlineTimer(mono: real)
    | MarkLost(why: LostReason)
    | StopCalled
    | StopResumed

  function React(g: Mgr, i: Input): (Mgr, Option<Ask>) {
    match i
    case Tick(mono, call) => BeginTick(g, mono, call)
    case Answered(a, call) => OnAnswer(g, a, call)
    case Rejected(mono, timedOut) => (OnReject(g, mono, timedOut), None)
    case DeadlineTimer(mono) => (OnDeadline(g, mono), None)
    case MarkLost(why) => (Lose(g, why), None)
    case StopCalled => (BeginStop(g), None)
    case StopResumed => EndStop(g)
  }

  function Drive(g: Mgr, inputs: seq<Input>): Mgr
    decreases |inputs|
  {
    if inputs == [] then g else React(Drive(g, inputs[..|inputs| - 1]), inputs[|inputs| - 1]).0
  }

  /** `acquired` at most once, `lost` at most once and only after it; a holder has emitted just `acquired`. */
  predicate Shape(g: Mgr) {
    && (|g.emitted| == 0 || |g.emitted| == 1 || |g.emitted| == 2)
    && (|g.emitted| >= 1 ==> g.emitted[0].Acquired?)
    && (|g.emitted| == 2 ==> g.emitted[1].Lost?)
    && (g.state == Holder ==> |g.emitted| == 1 && g.emitted[0] == Acquired(g.epoch))
    && (g.state == Standby && |g.emitted| >= 1 ==> g.stopped)
    && (g.phase.AwaitAcquire? ==> g.state == Standby && (g.stopped || g.emitted == []))
    && (g.phase.AwaitRelease? ==> g.stopped && g.state == Standby)
    && (g.stops > 0 ==> g.stopped)
  }

  lemma ReactKeepsShape(g: Mgr, i: Input)
    requires Shape(g)
    ensures Shape(React(g, i).0)
  {
  }

  /** Over every interleaving of ticks, answers, rejections, timers, markLost and stop. */
  lemma {:induction false} RunShape(ttl: real, renew: real, inputs: seq<Input>)
    ensures Shape(Drive(Fresh(ttl, renew), inputs))
    decreases |inputs|
  {
    if inputs != [] {
      RunShape(ttl, renew, inputs[..|inputs| - 1]);
      ReactKeepsShape(Drive(Fresh(ttl, renew), inputs[..|inputs| - 1]), inputs[|inputs| - 1]);
    }
  }

  /** Halting is final: whatever follows, only releases are asked for, `holder` is
      never entered again, and a grant seen late is handed back with its own epoch. */
  lemma {:induction false} AfterHalt(g: Mgr, inputs: seq<Input>, next: Input)
    requires g.stopped
    ensures var h := Drive(g, inputs);
      && h.stopped
      && (g.state == Standby ==> h.state == Standby)
      && (React(h, next).1.Some? ==> React(h, next).1.value.AskRelease?)
      && (React(h, next).0.state == Holder ==> h.state == Holder)
      && (h.phase.AwaitAcquire? && next.Answered? && next.a.Granted? ==> React(h, next).1 == Some(AskRelease(next.a.e)))
    decreases |inputs|
  {
    if inputs != [] {
      AfterHalt(g, inputs[..|inputs| - 1], inputs[|inputs| - 1]);
    }
  }

  /** Exactly what makes a holder give up, and that it then halts and says so once. */
  lemma LosesExactly(g: Mgr, i: Input)
    requires g.state == Holder
    ensures var g' := React(g, i).0;
      && (g'.state == Standby <==>
            || (i.Tick? && g.phase == Idle && !g.stopped && g.deadline <= i.mono)
            || (i.DeadlineTimer? && !g.stopped && g.deadline <= i.mono)
            || (i.Answered? && g.phase.AwaitRenew? && i.a != Renewed(true))
            || (i.Rejected? && (g.phase.AwaitAcquire? || g.phase.AwaitRenew?) && (i.timedOut || g.deadline <= i.mono))
            || i.MarkLost?
            || (i.StopResumed? && g.stops > 0))
      && (g'.state == Standby && !i.StopResumed? ==> g'.stopped && g'.emitted == g.emitted + [Lost(
            if i.MarkLost? then i.why else if i.Answered? then Superseded else Unreachable)])
  {
  }

  /** What a running manager asks for, and when: a grant in standby, a renewal of its own epoch while its lease lasts. */
  lemma AsksExactly(g: Mgr, mono: real, call: nat)
    ensures var (g', ask) := React(g, Tick(mono, call));
      && ask == (if g.stopped || g.phase != Idle then None
                 else if g.state == Standby then Some(AskAcquire)
                 else if mono < g.deadline then Some(AskRenew(g.epoch)) else None)
      && (ask == Some(AskAcquire) ==> g' == g.(phase := AwaitAcquire(mono, call)))
      && (ask.Some? && ask.value.AskRenew? ==> g' == g.(phase := AwaitRenew(mono, call)))
  {
  }

  /** A grant or renewal counts from the clock read before the call; a refusal changes nothing. */
  lemma AnswersExactly(g: Mgr, a: Answer, call: nat)
    requires !g.stopped
    ensures var g' := React(g, Answered(a, call)).0;
      && (g.phase.AwaitAcquire? && a.Granted? ==>
            g'.state == Holder && g'.epoch == a.e && g'.deadline == g.phase.m + g.ttl - g.renew && g'.emitted == g.emitted + [Acquired(a.e)])
      && (g.phase.AwaitAcquire? && !a.Granted? ==> g' == g.(phase := Idle))
      && (g.phase.AwaitRenew? && a == Renewed(true) && g.state == Holder ==>
            g' == g.(phase := Idle, deadline := g.phase.m + g.ttl - g.renew))
  {
  }

  /** stop() halts at once; when it goes on, a holder releases its own epoch. */
  lemma StopExactly(g: Mgr)
    ensures React(g, StopCalled) == (g.(stopped := true, stops := g.stops + 1), None)
    ensures var (g', ask) := React(g, StopResumed);
      && (g.stops > 0 ==> g'.state == Standby && g'.stops == g.stops - 1 && ask == if g.state == Holder then Some(AskRelease(g.epoch)) else None)
      && (g.stops == 0 ==> g' == g && ask == None)
  {
  }

  /** The object itself, with the fields the source updates in place. */
  class LeaseManager {
    const ttl: real
    const renew: real
    var state: LeaseState
    var epoch: nat
    var deadline: real
    var stopped: bool
    var phase: Phase
    var stops: nat
    var emitted: seq<Emitted>

    ghost function View(): Mgr
      reads this
    {
      Mgr(ttl, renew, state, epoch, deadline, stopped, phase, stops, emitted)
    }

    constructor (ttl: real, renew: real)
      requires renew < ttl
      ensures View() == Fresh(ttl, renew)
    {
      this.ttl, this.renew := ttl, renew;
      state, epoch, deadline, stopped := Standby, 0, 0.0, false;
      phase, stops, emitted := Idle, 0, [];
    }

    method GetState(mono: real) returns (s: LeaseState)
      ensures s == StateAt(View(), mono)
    {
      s := state;
      if state == Holder && mono >= deadline {
        s := Standby;
      }
    }

    method ExtendFrom(from: real)
      modifies this`deadline
      ensures View() == Extend(old(View()), from)
    {
      deadline := from + ttl - renew;
    }

    method LoseLease(why: LostReason)
      modifies this
      ensures View() == Lose(old(View()), why)
    {
      if state != Holder {
        return;
      }
      state := Standby;
      Halt();
      emitted := emitted + [Lost(why)];
    }

    method Halt()
      modifies this`stopped
      ensures stopped
    {
      stopped := true;
    }

    method BeginStep(mono: real, call: nat) returns (ask: Option<Ask>)
      modifies this
      ensures (View(), ask) == BeginTick(old(View()), mono, call)
    {
      ask := None;
      if phase != Idle {
        return;
      }
      if stopped {
        return;
      }
      if state == Standby {
        phase, ask := AwaitAcquire(mono, call), Some(AskAcquire);
      } else if mono >= deadline {
        LoseLease(Unreachable);
      } else {
        phase, ask := AwaitRenew(mono, call), Some(AskRenew(epoch));
      }
    }

    method ResumeStep(a: Answer, call: nat) returns (ask: Option<Ask>)
      modifies this
      ensures (View(), ask) == OnAnswer(old(View()), a, call)
    {
      ask := None;
      match phase {
        case Idle =>
        case AwaitAcquire(m, _) =>
          phase := Idle;
          if !a.Granted? {
            return;
          }
          if stopped {
            phase, ask := AwaitRelease(call), Some(AskRelease(a.e));
            return;
          }
          state, epoch := Holder, a.e;
          ExtendFrom(m);
          emitted := emitted + [Acquired(a.e)];
        case AwaitRenew(m, _) =>
          phase := Idle;
          if a == Renewed(true) {
            if state == Holder && !stopped {
              ExtendFrom(m);
            }
            return;
          }
          LoseLease(Superseded);
        case AwaitRelease(_) =>
          phase := Idle;
      }
    }

    method FailStep(mono: real, timedOut: bool)
      modifies this
      ensures View() == OnReject(old(View()), mono, timedOut)
    {
      var was := phase;
      phase := Idle;
      if was == Idle || was.AwaitRelease? {
        return;
      }
      if state == Holder && (timedOut || mono >= deadline) {
        LoseLease(Unreachable);
      }
    }

    method DeadlineFired(mono: real)
      modifies this
      ensures View() == OnDeadline(old(View()), mono)
    {
      if state != Holder || stopped {
        return;
      }
      if mono >= deadline {
        LoseLease(Unreachable);
      }
    }

    method CallStop()
      modifies this
      ensures View() == BeginStop(old(View()))
    {
      Halt();
      stops := stops + 1;
    }

    method ResumeStop() returns (ask: Option<Ask>)
      modifies this
      ensures (View(), ask) == EndStop(old(View()))
    {
      ask := None;
      if stops == 0 {
        return;
      }
      var wasHolder := state == Holder;
      state, stops := Standby, stops - 1;
      if wasHolder {
        ask := Some(AskRelease(epoch));
      }
    }
  }
}
