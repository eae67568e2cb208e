/**
 * The embedder sidecar's client (src/main/embedderClient.ts EmbedderClient): a queue, one
 * request in flight, restarts with backoff and a crash loop that ends it.
 */
module Embedder {
  import opened Prelude

  const CRASH_LOOP_FAILURES := 3
  const CRASH_LOOP_WINDOW_MS := 300_000
  const MAX_BACKOFF_MS := 30_000

  datatype State = Idle | Starting | Ready | Backoff | Dead
  datatype Req = Req(id: nat, attempts: nat)

  /** The request in flight, its message id, and the child it was written to. */
  datatype Flight = Flight(p: Req, id: nat, to: nat)
  datatype Timer = NoTimer | ReadyTimer(child: nat) | RequestTimer(child: nat) | BackoffTimer(delay: int)
  datatype Outcome = Replied | ReplyError | FailedTwice | Unavailable
  datatype Settled = Settled(req: nat, how: Outcome)
  datatype Send = Send(req: nat, id: nat, to: nat)

  datatype Client = Client(
    st: State, child: Option<nat>, queue: seq<Req>, inflight: Option<Flight>, nextId: nat,
    failures: seq<int>, timer: Timer, killed: set<nat>, spawned: nat,
    submitted: nat, settled: seq<Settled>, sends: seq<Send>, fatals: nat)

  const Fresh: Client := Client(Idle, None, [], None, 1, [], NoTimer, {}, 0, 0, [], [], 0)

  datatype Msg = MReady(protocolOk: bool) | MFatal | MReply(id: int, ok: bool)

  // ---------------------------------------------------------------- the operations

  function Pow2(n: nat): nat { if n == 0 then 1 else 2 * Pow2(n - 1) }

  function Delay(failures: nat): int
    requires failures > 0
  {
    Min(MAX_BACKOFF_MS, 1000 * Pow2(failures - 1))
  }

  function Recent(failures: seq<int>, t: int): seq<int> {
    if failures == [] then []
    else (if t - failures[0] < CRASH_LOOP_WINDOW_MS then [failures[0]] else []) + Recent(failures[1..], t)
  }

  function AllUnavailable(rs: seq<Req>): seq<Settled> {
    if rs == [] then [] else [Settled(rs[0].id, Unavailable)] + AllUnavailable(rs[1..])
  }

  function InFlight(c: Client): seq<Req> { if c.inflight.Some? then [c.inflight.value.p] else [] }

  function Stop(c: Client): Client {
    c.(st := Dead, timer := NoTimer, child := None, inflight := None, queue := [],
       settled := c.settled + AllUnavailable(InFlight(c) + c.queue))
  }

  function Kill(c: Client, child: nat): Client { c.(killed := c.killed + {child}) }

  function Pump(c: Client): Client {
    if c.st != Ready || c.inflight.Some? || c.queue == [] || c.child == None || c.child.value in c.killed then c
    else c.(queue := c.queue[1..], nextId := c.nextId + 1,
            inflight := Some(Flight(c.queue[0], c.nextId, c.child.value)),
            timer := RequestTimer(c.child.value),
            sends := c.sends + [Send(c.queue[0].id, c.nextId, c.child.value)])
  }

  /** Before the failure is counted: the request in flight goes back to the head, or fails for good. */
  function Returned(c: Client): Client {
    var d := c.(child := None, timer := NoTimer, inflight := None);
    if c.inflight == None then d
    else
      var p := c.inflight.value.p.(attempts := c.inflight.value.p.attempts + 1);
      if p.attempts >= 2 then d.(settled := c.settled + [Settled(p.id, FailedTwice)])
      else d.(queue := [p] + c.queue)
  }

  function OnChildGone(c: Client, child: Option<nat>, t: int): Client {
    if child != c.child || c.st == Dead then c
    else
      var d := Returned(c);
      var fs := Recent(c.failures, t) + [t];
      if |fs| >= CRASH_LOOP_FAILURES then var e := Stop(d.(failures := fs)); e.(fatals := e.fatals + 1)
      else if d.queue == [] then d.(failures := fs, st := Idle)
      else d.(failures := fs, st := Backoff, timer := BackoffTimer(Delay(|fs|)))
  }

  /** `spawns` is whether spawn() returns a child or throws. */
  function Start(c: Client, spawns: bool, t: int): Client {
    if !spawns then OnChildGone(c.(st := Starting), None, t)
    else c.(st := Starting, child := Some(c.spawned), spawned := c.spawned + 1, timer := ReadyTimer(c.spawned))
  }

  function Queued(c: Client): Client { c.(queue := c.queue + [Req(c.submitted, 0)], submitted := c.submitted + 1) }

  /** embed() of a non-empty list of texts. */
  function Embed(c: Client, spawns: bool, t: int): Client {
    if c.st == Dead then c.(submitted := c.submitted + 1, settled := c.settled + [Settled(c.submitted, Unavailable)])
    else
      var d := Queued(c);
      if d.st == Idle then Start(d, spawns, t) else Pump(d)
  }

  /** The request in flight settles by its reply. */
  function Answered(c: Client, ok: bool): Client
    requires c.inflight.Some?
  {
    c.(timer := NoTimer, inflight := None,
       settled := c.settled + [Settled(c.inflight.value.p.id, if ok then Replied else ReplyError)])
  }

  function OnMessage(c: Client, child: nat, m: Msg): Client {
    if Some(child) != c.child || child in c.killed then c
    else match m
      case MReady(protocolOk) =>
        if !protocolOk then var d := Stop(Kill(c, child)); d.(fatals := d.fatals + 1)
        else Pump(c.(timer := NoTimer, st := Ready))
      case MFatal => c
      case MReply(id, ok) =>
        if c.inflight == None || id != c.inflight.value.id then Kill(c, child)
        else Pump(Answered(c, ok))
  }

  function OnTimer(c: Client, spawns: bool, t: int): Client {
    match c.timer
    case NoTimer => c
    case ReadyTimer(child) => Kill(c.(timer := NoTimer), child)
    case RequestTimer(child) => Kill(c.(timer := NoTimer), child)
    case BackoffTimer(_) => Start(c.(timer := NoTimer), spawns, t)
  }

  datatype Event =
    | EEmbed(spawns: bool, t: int)
    | EMessage(child: nat, m: Msg)
    | EGarbage(child: nat)               // the child's output does not decode
    | EGone(child: nat, t: int)          // exit or spawn error, of any child ever
    | ETimer(spawns: bool, t: int)
    | EDispose

  function Step(c: Client, e: Event): Client {
    match e
    case EEmbed(spawns, t) => Embed(c, spawns, t)
    case EMessage(child, m) => OnMessage(c, child, m)
    case EGarbage(child) => if child < c.spawned then Kill(c, child) else c
    case EGone(child, t) => OnChildGone(c, Some(child), t)
    case ETimer(spawns, t) => OnTimer(c, spawns, t)
    case EDispose => Stop(c)
  }

  function Run(c: Client, es: seq<Event>): Client
    decreases |es|
  {
    if es == [] then c else Step(Run(c, es[..|es| - 1]), es[|es| - 1])
  }

  // ---------------------------------------------------------------- conservation and order

  function Ids(rs: seq<Req>): seq<nat> { seq(|rs|, i requires 0 <= i < |rs| => rs[i].id) }

  function SettledIds(ss: seq<Settled>): seq<nat> { seq(|ss|, i requires 0 <= i < |ss| => ss[i].req) }

  function Upto(n: nat): seq<nat> { seq(n, i => i) }

  /** Every request ever submitted is settled, in flight or queued, in submission order and only once. */
  ghost predicate Conserved(c: Client) {
    SettledIds(c.settled) + Ids(InFlight(c)) + Ids(c.queue) == Upto(c.submitted)
  }

  lemma {:induction false} UnavailableIds(rs: seq<Req>)
    ensures SettledIds(AllUnavailable(rs)) == Ids(rs)
  {
    if rs != [] {
      UnavailableIds(rs[1..]);
      var a := AllUnavailable(rs[1..]);
      assert SettledIds([Settled(rs[0].id, Unavailable)] + a) == [rs[0].id] + SettledIds(a);
      assert Ids(rs) == [rs[0].id] + Ids(rs[1..]);
    }
  }

  lemma StopConserves(c: Client)
    requires Conserved(c)
    ensures Conserved(Stop(c))
  {
    var rs := InFlight(c) + c.queue;
    UnavailableIds(rs);
    assert Ids(rs) == Ids(InFlight(c)) + Ids(c.queue);
    assert SettledIds(c.settled + AllUnavailable(rs)) == SettledIds(c.settled) + SettledIds(AllUnavailable(rs));
  }

  lemma PumpConserves(c: Client)
    requires Conserved(c)
    ensures Conserved(Pump(c))
  {
    if Pump(c) != c {
      assert Ids(c.queue) == Ids([c.queue[0]]) + Ids(c.queue[1..]);
    }
  }

  lemma ReturnedConserves(c: Client)
    requires Conserved(c)
    ensures Conserved(Returned(c))
  {
    if c.inflight.Some? {
      var p := c.inflight.value.p.(attempts := c.inflight.value.p.attempts + 1);
      assert Ids([p] + c.queue) == Ids(InFlight(c)) + Ids(c.queue);
      assert SettledIds(c.settled + [Settled(p.id, FailedTwice)]) == SettledIds(c.settled) + Ids(InFlight(c));
    }
  }

  lemma GoneConserves(c: Client, child: Option<nat>, t: int)
    requires Conserved(c)
    ensures Conserved(OnChildGone(c, child, t))
  {
    ReturnedConserves(c);
    StopConserves(Returned(c).(failures := Recent(c.failures, t) + [t]));
  }

  lemma StartConserves(c: Client, spawns: bool, t: int)
    requires Conserved(c)
    ensures Conserved(Start(c, spawns, t))
  {
    GoneConserves(c.(st := Starting), None, t);
  }

  lemma EmbedConserves(c: Client, spawns: bool, t: int)
    requires Conserved(c)
    requires c.st == Dead ==> c.inflight == None && c.queue == []
    ensures Conserved(Embed(c, spawns, t))
  {
    assert Upto(c.submitted + 1) == Upto(c.submitted) + [c.submitted];
    if c.st == Dead {
      assert SettledIds(c.settled + [Settled(c.submitted, Unavailable)]) == SettledIds(c.settled) + [c.submitted];
    } else {
      var d := Queued(c);
      assert Ids(d.queue) == Ids(c.queue) + [c.submitted];
      assert Conserved(d);
      StartConserves(d, spawns, t);
      PumpConserves(d);
    }
  }

  lemma MessageConserves(c: Client, child: nat, m: Msg)
    requires Conserved(c)
    ensures Conserved(OnMessage(c, child, m))
  {
    match m
    case MReady(_) =>
      StopConserves(Kill(c, child));
      PumpConserves(c.(timer := NoTimer, st := Ready));
    case MFatal =>
    case MReply(id, ok) =>
      if c.inflight.Some? && id == c.inflight.value.id {
        var s := Settled(c.inflight.value.p.id, if ok then Replied else ReplyError);
        assert SettledIds(c.settled + [s]) == SettledIds(c.settled) + Ids(InFlight(c));
        PumpConserves(c.(timer := NoTimer, inflight := None, settled := c.settled + [s]));
      }
  }

  // ---------------------------------------------------------------- the shape of reachable states

  predicate Shape(c: Client) {
    && (c.child.Some? <==> c.st == Starting || c.st == Ready)
    && (c.child.Some? ==> c.child.value < c.spawned)
    && (forall k :: k in c.killed ==> k < c.spawned)
    && (c.inflight.Some? ==> c.st == Ready && c.inflight.value.to == c.child.value && c.inflight.value.id < c.nextId)
    // a live, ready child is never idle while requests wait
    && (c.st == Ready && c.child.value !in c.killed && c.queue != [] ==> c.inflight.Some?)
    && (c.st == Idle || c.st == Dead ==> c.queue == [])
    && (c.st == Dead ==> c.timer == NoTimer)
    && (c.st == Backoff <==> c.timer.BackoffTimer?)
    && (c.st == Starting ==> c.timer == ReadyTimer(c.child.value) || c.child.value in c.killed)
    && (c.timer.ReadyTimer? || c.timer.RequestTimer? ==> c.timer.child < c.spawned)
    && (c.st != Dead ==> |c.failures| < CRASH_LOOP_FAILURES)
    // two failures end in the crash loop, so the backoff never grows beyond its second value
    && (c.timer.BackoffTimer? ==> c.timer.delay == 1000 || c.timer.delay == 2000)
  }

  lemma {:induction false} RecentShrinks(fs: seq<int>, t: int)
    ensures |Recent(fs, t)| <= |fs|
  {
    if fs != [] {
      RecentShrinks(fs[1..], t);
    }
  }

  lemma GoneKeepsShape(c: Client, child: Option<nat>, t: int)
    requires Shape(c) || (child == None && c.child == None && c.st == Starting && c.inflight == None
                          && |c.failures| < CRASH_LOOP_FAILURES && (forall k :: k in c.killed ==> k < c.spawned))
    ensures Shape(OnChildGone(c, child, t))
  {
    RecentShrinks(c.failures, t);
    assert Delay(1) == 1000 && Delay(2) == 2000;
  }

  lemma EmbedKeepsShape(c: Client, spawns: bool, t: int)
    requires Shape(c)
    ensures Shape(Embed(c, spawns, t))
  {
    if c.st == Idle && !spawns {
      GoneKeepsShape(Queued(c).(st := Starting), None, t);
    }
  }

  lemma MessageKeepsShape(c: Client, child: nat, m: Msg)
    requires Shape(c)
    ensures Shape(OnMessage(c, child, m))
  {
  }

  lemma TimerKeepsShape(c: Client, spawns: bool, t: int)
    requires Shape(c)
    ensures Shape(OnTimer(c, spawns, t))
  {
    if c.timer.BackoffTimer? && !spawns {
      GoneKeepsShape(c.(timer := NoTimer, st := Starting), None, t);
    }
  }

  lemma StepKeepsShape(c: Client, e: Event)
    requires Shape(c)
    ensures Shape(Step(c, e))
  {
    match e
    case EEmbed(spawns, t) => EmbedKeepsShape(c, spawns, t);
    case EMessage(child, m) => MessageKeepsShape(c, child, m);
    case EGarbage(_) =>
    case EGone(child, t) => GoneKeepsShape(c, Some(child), t);
    case ETimer(spawns, t) => TimerKeepsShape(c, spawns, t);
    case EDispose =>
  }

  // ---------------------------------------------------------------- message ids

  /** Ids count the sends, so none repeats; what is in flight is the last send. */
  predicate Numbered(c: Client) {
    && c.nextId == |c.sends| + 1
    && (forall i :: 0 <= i < |c.sends| ==> c.sends[i].id == i + 1)
    && (c.inflight.Some? ==> c.sends != []
                             && c.sends[|c.sends| - 1] == Send(c.inflight.value.p.id, c.inflight.value.id, c.inflight.value.to))
  }

  lemma PumpNumbers(c: Client)
    requires Numbered(c)
    ensures Numbered(Pump(c))
  {
  }

  lemma GoneNumbers(c: Client, child: Option<nat>, t: int)
    requires Numbered(c)
    ensures Numbered(OnChildGone(c, child, t))
  {
  }

  lemma StartNumbers(c: Client, spawns: bool, t: int)
    requires Numbered(c)
    ensures Numbered(Start(c, spawns, t))
  {
    if !spawns { GoneNumbers(c.(st := Starting), None, t); }
  }

  lemma QueuedNumbers(c: Client)
    requires Numbered(c)
    ensures Numbered(Queued(c))
  {
  }

  lemma EmbedNumbers(c: Client, spawns: bool, t: int)
    requires Numbered(c)
    ensures Numbered(Embed(c, spawns, t))
  {
    var d := Queued(c);
    QueuedNumbers(c);
    if d.st == Idle { StartNumbers(d, spawns, t); } else { PumpNumbers(d); }
  }

  lemma MessageNumbers(c: Client, child: nat, m: Msg)
    requires Numbered(c)
    ensures Numbered(OnMessage(c, child, m))
  {
    PumpNumbers(c.(timer := NoTimer, st := Ready));
    if m.MReply? && c.inflight.Some? {
      PumpNumbers(Answered(c, m.ok));
    }
  }

  lemma TimerNumbers(c: Client, spawns: bool, t: int)
    requires Numbered(c)
    ensures Numbered(OnTimer(c, spawns, t))
  {
    StartNumbers(c.(timer := NoTimer), spawns, t);
  }

  lemma StepNumbers(c: Client, e: Event)
    requires Numbered(c)
    ensures Numbered(Step(c, e))
  {
    match e
    case EEmbed(spawns, t) => EmbedNumbers(c, spawns, t);
    case EMessage(child, m) => MessageNumbers(c, child, m);
    case EGarbage(_) =>
    case EGone(child, t) => GoneNumbers(c, Some(child), t);
    case ETimer(spawns, t) => TimerNumbers(c, spawns, t);
    case EDispose =>
  }

  // ---------------------------------------------------------------- no request is sent more than twice

  function Times(sends: seq<Send>, req: nat): nat {
    if sends == [] then 0
    else Times(sends[..|sends| - 1], req) + if sends[|sends| - 1].req == req then 1 else 0
  }

  /** The attempts recorded in a request are the times it has been sent and come back. */
  ghost predicate Metered(c: Client) {
    && (forall i :: 0 <= i < |c.queue| ==> c.queue[i].attempts < 2 && Times(c.sends, c.queue[i].id) == c.queue[i].attempts)
    && (c.inflight.Some? ==> c.inflight.value.p.attempts < 2
                             && Times(c.sends, c.inflight.value.p.id) == c.inflight.value.p.attempts + 1)
    && (forall r :: Times(c.sends, r) <= 2)
    && (forall r :: r >= c.submitted ==> Times(c.sends, r) == 0)
  }

  /** Conservation makes waiting requests distinct from each other and from later ones. */
  lemma WaitingDistinct(c: Client)
    requires Conserved(c)
    ensures forall i :: 0 <= i < |c.queue| ==> c.queue[i].id < c.submitted
    ensures forall i, j :: 0 <= i < j < |c.queue| ==> c.queue[i].id != c.queue[j].id
    ensures c.inflight.Some? ==> c.inflight.value.p.id < c.submitted
    ensures c.inflight.Some? ==> forall i :: 0 <= i < |c.queue| ==> c.queue[i].id != c.inflight.value.p.id
  {
    var a, b, d := SettledIds(c.settled), Ids(InFlight(c)), Ids(c.queue);
    var all := a + b + d;
    forall i | 0 <= i < |c.queue|
      ensures c.queue[i].id == |a| + |b| + i
    {
      assert all[|a| + |b| + i] == d[i];
    }
    if c.inflight.Some? {
      assert all[|a|] == b[0];
    }
    assert |all| == c.submitted;
  }

  lemma PumpMeters(c: Client)
    requires Metered(c) && Conserved(c)
    ensures Metered(Pump(c))
  {
    var d := Pump(c);
    if d != c {
      WaitingDistinct(c);
      assert d.sends[..|d.sends| - 1] == c.sends;
      forall i | 0 <= i < |d.queue|
        ensures Times(d.sends, d.queue[i].id) == d.queue[i].attempts
      {
        assert d.queue[i] == c.queue[i + 1];
      }
    }
  }

  lemma ReturnedMeters(c: Client)
    requires Metered(c)
    ensures Metered(Returned(c))
  {
  }

  lemma GoneMeters(c: Client, child: Option<nat>, t: int)
    requires Metered(c)
    ensures Metered(OnChildGone(c, child, t))
  {
    ReturnedMeters(c);
  }

  lemma QueuedMeters(c: Client)
    requires Metered(c)
    ensures Metered(Queued(c))
  {
  }

  lemma EmbedMeters(c: Client, spawns: bool, t: int)
    requires Metered(c) && Conserved(c)
    ensures Metered(Embed(c, spawns, t))
  {
    if c.st != Dead {
      var d := Queued(c);
      QueuedMeters(c);
      EmbedQueued(c);
      PumpMeters(d);
      GoneMeters(d.(st := Starting), None, t);
    }
  }

  lemma MessageMeters(c: Client, child: nat, m: Msg)
    requires Metered(c) && Conserved(c)
    ensures Metered(OnMessage(c, child, m))
  {
    match m {
      case MReady(_) => PumpMeters(c.(timer := NoTimer, st := Ready));
      case MFatal =>
      case MReply(id, ok) =>
        if c.inflight.Some? && id == c.inflight.value.id {
          var s := Settled(c.inflight.value.p.id, if ok then Replied else ReplyError);
          assert SettledIds(c.settled + [s]) == SettledIds(c.settled) + Ids(InFlight(c));
          PumpMeters(c.(timer := NoTimer, inflight := None, settled := c.settled + [s]));
        }
    }
  }

  lemma StepMeters(c: Client, e: Event)
    requires Metered(c) && Conserved(c)
    ensures Metered(Step(c, e))
  {
    match e
    case EEmbed(spawns, t) => EmbedMeters(c, spawns, t);
    case EMessage(child, m) => MessageMeters(c, child, m);
    case EGarbage(_) =>
    case EGone(child, t) => GoneMeters(c, Some(child), t);
    case ETimer(spawns, t) => GoneMeters(c.(timer := NoTimer, st := Starting), None, t);
    case EDispose =>
  }

  lemma EmbedQueued(c: Client)
    requires Conserved(c)
    ensures Conserved(Queued(c))
  {
    assert Upto(c.submitted + 1) == Upto(c.submitted) + [c.submitted];
    assert Ids(c.queue + [Req(c.submitted, 0)]) == Ids(c.queue) + [c.submitted];
  }

  // ---------------------------------------------------------------- over every run

  lemma StepConserves(c: Client, e: Event)
    requires Conserved(c) && Shape(c)
    ensures Conserved(Step(c, e))
  {
    match e
    case EEmbed(spawns, t) => EmbedConserves(c, spawns, t);
    case EMessage(child, m) => MessageConserves(c, child, m);
    case EGarbage(child) =>
    case EGone(child, t) => GoneConserves(c, Some(child), t);
    case ETimer(spawns, t) => StartConserves(c.(timer := NoTimer), spawns, t);
    case EDispose => StopConserves(c);
  }

  lemma {:induction false} RunKeeps(es: seq<Event>)
    ensures Conserved(Run(Fresh, es)) && Shape(Run(Fresh, es)) && Metered(Run(Fresh, es)) && Numbered(Run(Fresh, es))
    decreases |es|
  {
    if es != [] {
      var c := Run(Fresh, es[..|es| - 1]);
      RunKeeps(es[..|es| - 1]);
      StepConserves(c, es[|es| - 1]);
      StepKeepsShape(c, es[|es| - 1]);
      StepMeters(c, es[|es| - 1]);
      StepNumbers(c, es[|es| - 1]);
    }
  }

  /** The n-th settlement is that of the n-th request: none is lost, repeated or overtaken; none is sent three times. */
  lemma RequestsConserved(es: seq<Event>)
    ensures var c := Run(Fresh, es);
      && |c.settled| + |InFlight(c)| + |c.queue| == c.submitted
      && (forall i :: 0 <= i < |c.settled| ==> c.settled[i].req == i)
      && (forall i :: 0 <= i < |c.queue| ==> c.queue[i].id == |c.settled| + |InFlight(c)| + i)
      && (c.inflight.Some? ==> c.inflight.value.p.id == |c.settled|)
      && (forall r :: Times(c.sends, r) <= 2)
  {
    RunKeeps(es);
    var c := Run(Fresh, es);
    var a, b, d := SettledIds(c.settled), Ids(InFlight(c)), Ids(c.queue);
    var all := a + b + d;
    assert |all| == c.submitted;
    forall i | 0 <= i < |c.settled| ensures c.settled[i].req == i { assert all[i] == a[i]; }
    forall i | 0 <= i < |c.queue| ensures c.queue[i].id == |a| + |b| + i { assert all[|a| + |b| + i] == d[i]; }
    if c.inflight.Some? { assert all[|a|] == b[0]; }
  }

  // ---------------------------------------------------------------- what must happen

  /** The head of the queue goes out to `child` under the next id; with an empty queue nothing does. */
  predicate Advances(c: Client, d: Client, child: nat) {
    && d.killed == c.killed && d.child == Some(child) && d.st == Ready && d.submitted == c.submitted && d.failures == c.failures
    && (if c.queue == [] then d.queue == [] && d.inflight == None && d.sends == c.sends && d.timer == NoTimer
        else
          && d.queue == c.queue[1..] && d.inflight == Some(Flight(c.queue[0], c.nextId, child))
          && d.sends == c.sends + [Send(c.queue[0].id, c.nextId, child)] && d.timer == RequestTimer(child))
  }

  /** The request in flight is the last one sent, to the current child, which lives. */
  predicate Serving(c: Client, child: nat) {
    c.child == Some(child) && child !in c.killed && c.inflight.Some? && c.sends != []
  }

  /** In every run: the reply to the last send of a live child settles that request, and the next one goes out. */
  lemma ReplySettles(es: seq<Event>, child: nat, ok: bool)
    requires Serving(Run(Fresh, es), child)
    ensures var c := Run(Fresh, es);
      var sent := c.sends[|c.sends| - 1];
      var d := Step(c, EMessage(child, MReply(sent.id, ok)));
      && d.settled == c.settled + [Settled(sent.req, if ok then Replied else ReplyError)]
      && Advances(c, d, child)
  {
    RunKeeps(es);
  }

  /** A reply with any other id settles nothing and has exactly that child killed. */
  lemma MismatchKills(es: seq<Event>, child: nat, id: int, ok: bool)
    requires var c := Run(Fresh, es); c.child == Some(child) && child !in c.killed
    requires var c := Run(Fresh, es); c.inflight.Some? && c.sends != [] ==> id != c.sends[|c.sends| - 1].id
    ensures var c := Run(Fresh, es);
      Step(c, EMessage(child, MReply(id, ok))) == c.(killed := c.killed + {child})
  {
    RunKeeps(es);
  }

  /** What a child says that is not the current one, or was killed, changes nothing. */
  lemma OldChildrenAreIgnored(c: Client, child: nat, m: Msg)
    requires c.child != Some(child) || child in c.killed
    ensures Step(c, EMessage(child, m)) == c
  {
  }

  /** A child that reports ready with the right protocol is given work; with the wrong one it is the end. */
  lemma ReadyExactly(es: seq<Event>, child: nat)
    requires var c := Run(Fresh, es); c.child == Some(child) && child !in c.killed
    ensures var c, d := Run(Fresh, es), Step(Run(Fresh, es), EMessage(child, MReady(true)));
      d.settled == c.settled && (c.inflight == None ==> Advances(c, d, child))
    ensures var c, d := Run(Fresh, es), Step(Run(Fresh, es), EMessage(child, MReady(false)));
      d.st == Dead && d.killed == c.killed + {child} && d.fatals == c.fatals + 1 && |d.settled| == c.submitted == d.submitted
  {
    RunKeeps(es);
    RunSnoc(es, EMessage(child, MReady(false)));
    RequestsConserved(es + [EMessage(child, MReady(false))]);
  }

  lemma RunSnoc(es: seq<Event>, e: Event)
    ensures Run(Fresh, es + [e]) == Step(Run(Fresh, es), e)
  {
    assert (es + [e])[..|es|] == es;
  }

  /** Earlier failures that lie within the window at time `t`. */
  function Within(failures: seq<int>, t: int): nat {
    if failures == [] then 0 else (if t - failures[0] < 300_000 then 1 else 0) + Within(failures[1..], t)
  }

  lemma {:induction false} WithinIsRecent(failures: seq<int>, t: int)
    ensures |Recent(failures, t)| == Within(failures, t)
  {
    if failures != [] { WithinIsRecent(failures[1..], t); }
  }

  /**
   * In every run, when the current child is lost: the third failure within the window ends it; short of that
   * the request in flight goes back to the head if it was sent once and fails if it was sent twice, and the
   * client waits one or two seconds if anything is queued.
   */
  lemma LossExactly(es: seq<Event>, child: nat, t: int)
    requires Run(Fresh, es).child == Some(child)
    ensures var c, d := Run(Fresh, es), Step(Run(Fresh, es), EGone(child, t));
      var n := Within(c.failures, t);
      && d.child == None && d.inflight == None
      && (n >= 2 ==> d.st == Dead && d.fatals == c.fatals + 1 && d.queue == [])
      && (n < 2 ==>
            && |d.failures| == n + 1
            && (c.inflight == None ==> d.queue == c.queue && d.settled == c.settled)
            && (c.inflight.Some? && Times(c.sends, c.inflight.value.p.id) == 1 ==>
                  d.queue == [c.inflight.value.p.(attempts := 1)] + c.queue && d.settled == c.settled)
            && (c.inflight.Some? && Times(c.sends, c.inflight.value.p.id) == 2 ==>
                  d.queue == c.queue && d.settled == c.settled + [Settled(c.inflight.value.p.id, FailedTwice)])
            && (if d.queue == [] then d.st == Idle && d.timer == NoTimer
                else d.st == Backoff && d.timer == BackoffTimer(if n == 0 then 1000 else 2000)))
  {
    RunKeeps(es);
    var c := Run(Fresh, es);
    assert c.st != Dead;
    LossOutcome(c, child, t);
  }

  lemma LossOutcome(c: Client, child: nat, t: int)
    requires c.child == Some(child) && c.st != Dead && (c.inflight.Some? ==> c.inflight.value.p.attempts < 2)
    ensures var d, n := OnChildGone(c, Some(child), t), Within(c.failures, t);
      && d.child == None && d.inflight == None
      && (n >= 2 ==> d.st == Dead && d.fatals == c.fatals + 1 && d.queue == [])
      && (n < 2 ==>
            && |d.failures| == n + 1
            && (c.inflight == None ==> d.queue == c.queue && d.settled == c.settled)
            && (c.inflight.Some? && c.inflight.value.p.attempts == 0 ==>
                  d.queue == [c.inflight.value.p.(attempts := 1)] + c.queue && d.settled == c.settled)
            && (c.inflight.Some? && c.inflight.value.p.attempts == 1 ==>
                  d.queue == c.queue && d.settled == c.settled + [Settled(c.inflight.value.p.id, FailedTwice)])
            && (if d.queue == [] then d.st == Idle && d.timer == NoTimer
                else d.st == Backoff && d.timer == BackoffTimer(if n == 0 then 1000 else 2000)))
  {
    WithinIsRecent(c.failures, t);
    var fs := Recent(c.failures, t) + [t];
    assert |fs| == Within(c.failures, t) + 1;
    assert Delay(1) == 1000 && Delay(2) == 2000;
  }

  /** The timers: a child that is late is killed, and after a backoff a new one is started. */
  lemma TimerExactly(c: Client, t: int)
    ensures c.timer.ReadyTimer? || c.timer.RequestTimer? ==>
      forall spawns :: Step(c, ETimer(spawns, t)) == c.(timer := NoTimer, killed := c.killed + {c.timer.child})
    ensures c.timer.BackoffTimer? ==>
      Step(c, ETimer(true, t)) == c.(st := Starting, child := Some(c.spawned), spawned := c.spawned + 1, timer := ReadyTimer(c.spawned))
  {
  }

  /** A request is refused at once when dead, starts a child when idle, and is sent at once when one is free. */
  lemma EmbedExactly(es: seq<Event>, t: int)
    ensures var c, d := Run(Fresh, es), Step(Run(Fresh, es), EEmbed(true, t));
      && d.submitted == c.submitted + 1
      && (c.st == Dead ==> d.settled == c.settled + [Settled(c.submitted, Unavailable)] && d.queue == [])
      && (c.st == Idle ==> d.st == Starting && d.child == Some(c.spawned) && d.queue == [Req(c.submitted, 0)] && d.timer == ReadyTimer(c.spawned))
      && (c.st == Ready && c.inflight == None && c.child.Some? && c.child.value !in c.killed ==>
            d.inflight == Some(Flight(Req(c.submitted, 0), c.nextId, c.child.value)) && d.timer == RequestTimer(c.child.value))
      && ((c.st == Starting || c.st == Backoff || c.inflight.Some?) ==> d.queue == c.queue + [Req(c.submitted, 0)])
  {
    RunKeeps(es);
  }

  /** dispose() turns away everything that waits. */
  lemma DisposeExactly(es: seq<Event>)
    ensures var c, d := Run(Fresh, es), Step(Run(Fresh, es), EDispose);
      && d.st == Dead && |d.settled| == c.submitted && c.settled <= d.settled
      && (forall i :: |c.settled| <= i < |d.settled| ==> d.settled[i] == Settled(i, Unavailable))
  {
    var c := Run(Fresh, es);
    RunSnoc(es, EDispose);
    RequestsConserved(es + [EDispose]);
    UnavailableHow(InFlight(c) + c.queue);
    RunKeeps(es + [EDispose]);
  }

  lemma {:induction false} UnavailableHow(rs: seq<Req>)
    ensures forall i :: 0 <= i < |AllUnavailable(rs)| ==> AllUnavailable(rs)[i].how == Unavailable
  {
    if rs != [] { UnavailableHow(rs[1..]); }
  }

  /** Replies of `child` to the sends from number `first` on. */
  function Replies(child: nat, first: int, oks: seq<bool>): seq<Event> {
    if oks == [] then [] else Replies(child, first, oks[..|oks| - 1]) + [EMessage(child, MReply(first + |oks| - 1, oks[|oks| - 1]))]
  }

  function ByReplies(first: nat, oks: seq<bool>): seq<Settled> {
    if oks == [] then []
    else ByReplies(first, oks[..|oks| - 1]) + [Settled(first + |oks| - 1, if oks[|oks| - 1] then Replied else ReplyError)]
  }

  /** `n` requests on from `c`: still serving, or with the last one answered nothing in flight. */
  predicate Along(c: Client, d: Client, child: nat, n: nat)
    requires n <= |c.queue| + 1
  {
    && d.child == Some(child) && d.killed == c.killed
    && (if n <= |c.queue| then Serving(d, child) && d.queue == c.queue[n..] && d.nextId == c.nextId + n
        else d.queue == [] && d.inflight == None)
  }

  lemma AlongOne(c: Client, d: Client, d': Client, child: nat, n: nat)
    requires n <= |c.queue| && Along(c, d, child, n) && Advances(d, d', child) && child !in c.killed
    requires d'.nextId == if d.queue == [] then d.nextId else d.nextId + 1
    ensures Along(c, d', child, n + 1)
  {
    if n < |c.queue| { assert c.queue[n..][1..] == c.queue[n + 1..]; }
  }

  lemma {:induction false} ByRepliesSize(first: nat, oks: seq<bool>)
    ensures |ByReplies(first, oks)| == |oks|
  {
    if oks != [] { ByRepliesSize(first, oks[..|oks| - 1]); }
  }

  /** The run `es` goes on from `c` with the replies `oks`. */
  predicate InTurn(c: Client, es: seq<Event>, child: nat, oks: seq<bool>) {
    && |oks| <= |c.queue| + 1 && child !in c.killed && Along(c, Run(Fresh, es), child, |oks|)
    && Run(Fresh, es).settled == c.settled + ByReplies(|c.settled|, oks)
  }

  lemma InTurnOne(c: Client, es: seq<Event>, es': seq<Event>, child: nat, oks: seq<bool>, oks': seq<bool>, ok: bool)
    requires InTurn(c, es, child, oks) && |oks| <= |c.queue| && oks' == oks + [ok]
    requires es' == es + [EMessage(child, MReply(c.nextId - 1 + |oks|, ok))]
    ensures InTurn(c, es', child, oks')
  {
    NextAnswered(es, child, c.nextId - 1 + |oks|, ok);
    AlongOne(c, Run(Fresh, es), Run(Fresh, es'), child, |oks|);
    SettledOneMore(c.settled, oks, ok);
  }

  lemma SettledOneMore(settled: seq<Settled>, oks: seq<bool>, ok: bool)
    ensures settled + ByReplies(|settled|, oks) + [Settled(|settled + ByReplies(|settled|, oks)|, if ok then Replied else ReplyError)]
      == settled + ByReplies(|settled|, oks + [ok])
  {
    ByRepliesSize(|settled|, oks);
    assert (oks + [ok])[..|oks|] == oks;
    Assoc(settled, ByReplies(|settled|, oks), [Settled(|settled| + |oks|, if ok then Replied else ReplyError)]);
  }

  /** A child that answers every request in turn settles the whole queue, in order, each by its own reply. */
  lemma {:induction false} AnsweredInTurn(c: Client, es: seq<Event>, es': seq<Event>, child: nat, oks: seq<bool>)
    requires InTurn(c, es, child, []) && |oks| <= |c.queue| + 1 && es' == es + Replies(child, c.nextId - 1, oks)
    ensures InTurn(c, es', child, oks)
    decreases |oks|
  {
    if oks == [] {
      Units(es);
    } else {
      var front, ok := oks[..|oks| - 1], oks[|oks| - 1];
      var mid := es + Replies(child, c.nextId - 1, front);
      AnsweredInTurn(c, es, mid, child, front);
      Assoc(es, Replies(child, c.nextId - 1, front), [EMessage(child, MReply(c.nextId - 1 + |front|, ok))]);
      InTurnOne(c, mid, es', child, front, oks, ok);
    }
  }

  /** Any run with a request in the hands of a live child is such a start. */
  lemma ServingStarts(es: seq<Event>, c: Client, child: nat)
    requires c == Run(Fresh, es) && Serving(c, child)
    ensures InTurn(c, es, child, [])
  {
    Units(c.settled);
  }

  lemma NextAnswered(es: seq<Event>, child: nat, id: int, ok: bool)
    requires Serving(Run(Fresh, es), child) && id == Run(Fresh, es).nextId - 1
    ensures var c, e := Run(Fresh, es), EMessage(child, MReply(id, ok));
      var d := Run(Fresh, es + [e]);
      && d.settled == c.settled + [Settled(|c.settled|, if ok then Replied else ReplyError)]
      && Advances(c, d, child) && (c.queue != [] ==> d.nextId == c.nextId + 1) && (c.queue == [] ==> d.nextId == c.nextId)
  {
    RunKeeps(es);
    RequestsConserved(es);
    ReplySettles(es, child, ok);
    RunSnoc(es, EMessage(child, MReply(id, ok)));
  }

  // ---------------------------------------------------------------- the request timeout

  /** A request that a live child has in hand is timed. */
  predicate Timed(c: Client) {
    c.inflight.Some? && c.child.Some? && c.child.value !in c.killed ==> c.timer == RequestTimer(c.child.value)
  }

  /** A `ready` of the live child while a request is in flight: it clears the request's timer. */
  predicate Disarms(c: Client, e: Event) {
    && e.EMessage? && e.m == MReady(true) && c.inflight.Some?
    && c.child == Some(e.child) && e.child !in c.killed
  }

  lemma GoneTimes(c: Client, child: Option<nat>, t: int)
    requires Timed(c)
    ensures Timed(OnChildGone(c, child, t))
  {
  }

  lemma MessageTimes(c: Client, child: nat, m: Msg)
    requires Shape(c) && Timed(c)
    ensures Timed(OnMessage(c, child, m)) <==> !Disarms(c, EMessage(child, m))
  {
  }

  lemma TimerTimes(c: Client, spawns: bool, t: int)
    requires Shape(c) && Timed(c)
    ensures Timed(OnTimer(c, spawns, t))
  {
    if c.timer.BackoffTimer? && !spawns { GoneTimes(c.(timer := NoTimer, st := Starting), None, t); }
  }

  lemma EmbedTimes(c: Client, spawns: bool, t: int)
    requires Shape(c) && Timed(c)
    ensures Timed(Embed(c, spawns, t))
  {
    var d := Queued(c);
    if c.st == Idle && !spawns { GoneTimes(d.(st := Starting), None, t); }
  }

  lemma StepTimes(c: Client, e: Event)
    requires Shape(c) && Timed(c)
    ensures Timed(Step(c, e)) <==> !Disarms(c, e)
  {
    match e
    case EEmbed(spawns, t) => EmbedTimes(c, spawns, t);
    case EMessage(child, m) => MessageTimes(c, child, m);
    case EGarbage(_) =>
    case EGone(child, t) => GoneTimes(c, Some(child), t);
    case ETimer(spawns, t) => TimerTimes(c, spawns, t);
    case EDispose =>
  }

  /** Timed after every prefix of the run. */
  predicate AlwaysTimed(es: seq<Event>)
    decreases |es|
  {
    Timed(Run(Fresh, es)) && (es != [] ==> AlwaysTimed(es[..|es| - 1]))
  }

  /** No event of the run disarms. */
  predicate NeverDisarms(es: seq<Event>)
    decreases |es|
  {
    es != [] ==> NeverDisarms(es[..|es| - 1]) && !Disarms(Run(Fresh, es[..|es| - 1]), es[|es| - 1])
  }

  /** Exactly which runs time every request: those without a `ready` in the middle of one. */
  lemma {:induction false} TimedExactly(es: seq<Event>)
    ensures AlwaysTimed(es) <==> NeverDisarms(es)
    decreases |es|
  {
    if es != [] {
      var front := es[..|es| - 1];
      TimedExactly(front);
      RunKeeps(front);
      if Timed(Run(Fresh, front)) { StepTimes(Run(Fresh, front), es[|es| - 1]); }
    }
  }

  /** A second `ready` leaves the request in flight with a live child and no timeout. */
  lemma SecondReadyDisarms()
    ensures var c := Run(Fresh, [EEmbed(true, 0), EMessage(0, MReady(true)), EMessage(0, MReady(true))]);
      c.inflight.Some? && c.timer == NoTimer && c.child == Some(0) && 0 !in c.killed
  {
    var e, r := EEmbed(true, 0), EMessage(0, MReady(true));
    assert [e][..0] == [] && [e, r][..1] == [e] && [e, r, r][..2] == [e, r];
    assert Run(Fresh, []) == Fresh;
    assert Run(Fresh, [e]) == Step(Fresh, e);
    assert Run(Fresh, [e, r]) == Step(Step(Fresh, e), r);
  }

  predicate ByReply(s: Settled) { s.how == Replied || s.how == ReplyError }

  lemma {:induction false} UnavailableOnly(rs: seq<Req>)
    ensures forall i :: 0 <= i < |AllUnavailable(rs)| ==> !ByReply(AllUnavailable(rs)[i])
  {
    if rs != [] {
      UnavailableOnly(rs[1..]);
    }
  }

  ghost predicate NewAreNotReplies(c: Client, d: Client) {
    c.settled <= d.settled && forall i :: |c.settled| <= i < |d.settled| ==> !ByReply(d.settled[i])
  }

  lemma GoneSettlesNoReply(c: Client, child: Option<nat>, t: int)
    ensures NewAreNotReplies(c, OnChildGone(c, child, t))
  {
    UnavailableOnly(InFlight(Returned(c)) + Returned(c).queue);
  }

  lemma StartSettlesNoReply(c: Client, spawns: bool, t: int)
    ensures NewAreNotReplies(c, Start(c, spawns, t))
  {
    if !spawns { GoneSettlesNoReply(c.(st := Starting), None, t); }
  }

  lemma EmbedSettlesNoReply(c: Client, spawns: bool, t: int)
    ensures NewAreNotReplies(c, Embed(c, spawns, t))
  {
    if c.st == Idle { StartSettlesNoReply(Queued(c), spawns, t); }
  }

  lemma OtherEventsSettleNoReply(c: Client, e: Event)
    requires !(e.EMessage? && e.m.MReply?)
    ensures NewAreNotReplies(c, Step(c, e))
  {
    match e
    case EEmbed(spawns, t) => EmbedSettlesNoReply(c, spawns, t);
    case EMessage(_, _) => UnavailableOnly(InFlight(c) + c.queue);
    case EGarbage(_) =>
    case EGone(child, t) => GoneSettlesNoReply(c, Some(child), t);
    case ETimer(spawns, t) => StartSettlesNoReply(c.(timer := NoTimer), spawns, t);
    case EDispose => UnavailableOnly(InFlight(c) + c.queue);
  }

  /** Only a reply of the current, unkilled child, carrying the id of the very send, settles a request by its content. */
  lemma OnlyItsReplySettles(es: seq<Event>, e: Event, i: nat)
    requires var c, d := Run(Fresh, es), Step(Run(Fresh, es), e);
      |c.settled| <= i < |d.settled| && ByReply(d.settled[i])
    ensures var c, d := Run(Fresh, es), Step(Run(Fresh, es), e);
      && e.EMessage? && e.m.MReply? && i == |c.settled|
      && c.child == Some(e.child) && e.child !in c.killed
      && c.inflight.Some? && c.inflight.value.id == e.m.id && c.inflight.value.to == e.child
      // the last send is the one answered, and no other send has its id
      && c.sends != [] && c.sends[|c.sends| - 1] == Send(d.settled[i].req, e.m.id, e.child)
      && (forall j :: 0 <= j < |c.sends| - 1 ==> c.sends[j].id != e.m.id)
      && d.settled[i].req == c.inflight.value.p.id && d.settled[i].how == (if e.m.ok then Replied else ReplyError)
  {
    RunKeeps(es);
    if !(e.EMessage? && e.m.MReply?) {
      OtherEventsSettleNoReply(Run(Fresh, es), e);
    }
  }

  /** Giving up is for good, and leaves nothing waiting. */
  lemma {:induction false} DeadIsAbsorbing(es: seq<Event>, more: seq<Event>)
    requires Run(Fresh, es).st == Dead
    ensures var c := Run(Run(Fresh, es), more);
      c.st == Dead && c.queue == [] && c.inflight == None && c.child == None && c.timer == NoTimer
    decreases |more|
  {
    RunKeeps(es);
    if more != [] {
      DeadIsAbsorbing(es, more[..|more| - 1]);
    }
  }

  // ---------------------------------------------------------------- the object

  /** The request in flight is turned away before the queue. */
  lemma StopSettles(c: Client)
    ensures Stop(c).settled ==
      (if c.inflight.Some? then c.settled + [Settled(c.inflight.value.p.id, Unavailable)] else c.settled) + AllUnavailable(c.queue)
  {
    if c.inflight.Some? {
      var p := c.inflight.value.p;
      assert ([p] + c.queue)[1..] == c.queue;
      Assoc(c.settled, [Settled(p.id, Unavailable)], AllUnavailable(c.queue));
    } else {
      Units(c.queue);
    }
  }

  lemma {:induction false} AllUnavailableSnoc(rs: seq<Req>, r: Req)
    ensures AllUnavailable(rs + [r]) == AllUnavailable(rs) + [Settled(r.id, Unavailable)]
  {
    if rs != [] {
      assert (rs + [r])[1..] == rs[1..] + [r];
      AllUnavailableSnoc(rs[1..], r);
    }
  }

  lemma {:induction false} RecentSnoc(fs: seq<int>, f: int, t: int)
    ensures Recent(fs + [f], t) == Recent(fs, t) + (if t - f < CRASH_LOOP_WINDOW_MS then [f] else [])
  {
    if fs != [] {
      assert (fs + [f])[1..] == fs[1..] + [f];
      RecentSnoc(fs[1..], f, t);
    }
  }

  class EmbedderClient {
    var st: State
    var child: Option<nat>
    var queue: seq<Req>
    var inflight: Option<Flight>
    var nextId: nat
    var failures: seq<int>
    var timer: Timer
    var killed: set<nat>
    var spawned: nat
    var submitted: nat
    var settled: seq<Settled>
    var sends: seq<Send>
    var fatals: nat

    ghost function View(): Client
      reads this
    {
      Client(st, child, queue, inflight, nextId, failures, timer, killed, spawned, submitted, settled, sends, fatals)
    }

    constructor ()
      ensures View() == Fresh
    {
      st, child, queue, inflight, nextId := Idle, None, [], None, 1;
      failures, timer, killed, spawned := [], NoTimer, {}, 0;
      submitted, settled, sends, fatals := 0, [], [], 0;
    }

    method RejectAll(rs: seq<Req>)
      modifies this`settled
      ensures settled == old(settled) + AllUnavailable(rs)
    {
      var i := 0;
      while i < |rs|
        invariant 0 <= i <= |rs| && settled == old(settled) + AllUnavailable(rs[..i])
      {
        assert rs[..i + 1] == rs[..i] + [rs[i]];
        AllUnavailableSnoc(rs[..i], rs[i]);
        settled := settled + [Settled(rs[i].id, Unavailable)];
        i := i + 1;
      }
      assert rs[..i] == rs;
    }

    method GiveUp()
      modifies this
      ensures View() == Stop(old(View()))
    {
      StopSettles(View());
      st, timer, child := Dead, NoTimer, None;
      var rest := queue;
      queue := [];
      if inflight.Some? {
        settled := settled + [Settled(inflight.value.p.id, Unavailable)];
        inflight := None;
      }
      RejectAll(rest);
    }

    method KillChild(c: nat)
      modifies this`killed
      ensures View() == Kill(old(View()), c)
    {
      killed := killed + {c};
    }

    method PumpQueue()
      modifies this
      ensures View() == Pump(old(View()))
    {
      if st != Ready || inflight.Some? || queue == [] || child == None || child.value in killed {
        return;
      }
      var p, id := queue[0], nextId;
      queue, nextId := queue[1..], nextId + 1;
      inflight := Some(Flight(p, id, child.value));
      timer := RequestTimer(child.value);
      sends := sends + [Send(p.id, id, child.value)];
    }

    /** failures.filter(f => t - f < window) */
    method DropOldFailures(t: int)
      modifies this`failures
      ensures failures == Recent(old(failures), t)
    {
      var kept: seq<int>, i := [], 0;
      while i < |failures|
        invariant 0 <= i <= |failures| && failures == old(failures)
        invariant kept == Recent(failures[..i], t)
      {
        assert failures[..i + 1] == failures[..i] + [failures[i]];
        RecentSnoc(failures[..i], failures[i], t);
        if t - failures[i] < CRASH_LOOP_WINDOW_MS {
          kept := kept + [failures[i]];
        }
        i := i + 1;
      }
      assert failures[..i] == failures;
      failures := kept;
    }

    /** The first half of onChildGone. */
    method ReturnInFlight()
      modifies this`child, this`timer, this`inflight, this`queue, this`settled
      ensures View() == Returned(old(View()))
    {
      child, timer := None, NoTimer;
      var inf := inflight;
      inflight := None;
      if inf.Some? {
        var p := inf.value.p.(attempts := inf.value.p.attempts + 1);
        if p.attempts >= 2 {
          settled := settled + [Settled(p.id, FailedTwice)];
        } else {
          queue := [p] + queue;
        }
      }
    }

    method ChildGone(c: Option<nat>, t: int)
      modifies this
      ensures View() == OnChildGone(old(View()), c, t)
    {
      if c != child || st == Dead {
        return;
      }
      ReturnInFlight();
      DropOldFailures(t);
      failures := failures + [t];
      if |failures| >= CRASH_LOOP_FAILURES {
        GiveUp();
        fatals := fatals + 1;
        return;
      }
      if queue == [] {
        st := Idle;
        return;
      }
      st := Backoff;
      timer := BackoffTimer(Delay(|failures|));
    }

    method Launch(spawns: bool, t: int)
      modifies this
      ensures View() == Start(old(View()), spawns, t)
    {
      st := Starting;
      if !spawns {
        ChildGone(None, t);
        return;
      }
      child, spawned := Some(spawned), spawned + 1;
      timer := ReadyTimer(child.value);
    }

    method Enqueue()
      modifies this`queue, this`submitted
      ensures View() == Queued(old(View()))
    {
      queue := queue + [Req(submitted, 0)];
      submitted := submitted + 1;
    }

    method EmbedTexts(spawns: bool, t: int)
      modifies this
      ensures View() == Embed(old(View()), spawns, t)
    {
      if st == Dead {
        settled := settled + [Settled(submitted, Unavailable)];
        submitted := submitted + 1;
        return;
      }
      Enqueue();
      if st == Idle {
        Launch(spawns, t);
      } else {
        PumpQueue();
      }
    }

    method Receive(c: nat, m: Msg)
      modifies this
      ensures View() == OnMessage(old(View()), c, m)
    {
      if Some(c) != child || c in killed {
        return;
      }
      match m {
        case MReady(protocolOk) =>
          if !protocolOk {
            KillChild(c);
            GiveUp();
            fatals := fatals + 1;
            return;
          }
          timer, st := NoTimer, Ready;
          PumpQueue();
        case MFatal =>
        case MReply(id, ok) =>
          if inflight == None || id != inflight.value.id {
            KillChild(c);
            return;
          }
          SettleReply(ok);
          PumpQueue();
      }
    }

    /** The reply to the request in flight. */
    method SettleReply(ok: bool)
      requires inflight.Some?
      modifies this`timer, this`inflight, this`settled
      ensures View() == Answered(old(View()), ok)
    {
      timer := NoTimer;
      var p := inflight.value.p;
      inflight := None;
      settled := settled + [Settled(p.id, if ok then Replied else ReplyError)];
    }

    method TimerFired(spawns: bool, t: int)
      modifies this
      ensures View() == OnTimer(old(View()), spawns, t)
    {
      var was := timer;
      timer := NoTimer;
      match was {
        case NoTimer =>
        case ReadyTimer(c) => KillChild(c);
        case RequestTimer(c) => KillChild(c);
        case BackoffTimer(_) => Launch(spawns, t);
      }
    }
  }
}
