/**
 * What the broker sent, read off the events alone (src/host/attachHub.ts, src/host/brokerOps.ts): the
 * outputs of each tap and whether its session is over. The hub's taps hold exactly that, so the streams
 * of the viewers are measured against the broker.
 */
module AttachSource {
  import opened Prelude
  import opened Replay
  import opened AttachStreams
  import opened AttachEnds
  import opened AttachRuns

  /** The ATTACH `e` opens tap `t`: the viewer may have it, and the session's tap has no upstream yet. */
  predicate Opens(h: Hub, e: Event, t: TapId) {
    && e.EAttach? && e.v in h.viewers && !h.viewers[e.v].closed && !Refuses(h.viewers[e.v], h.taps, e.s, e.ch)
    && (if e.s in h.current then h.current[e.s] == t && t < |h.taps| && !h.taps[t].upstream && !h.taps[t].ended else t == |h.taps|)
  }

  /** The bytes of tap `t` that an event brings. */
  function Brings(h: Hub, e: Event, t: TapId): seq<byte> {
    if e.EFanOut? && e.t == t && t < |h.taps| && !h.taps[t].gone then e.body
    else if Opens(h, e, t) then e.o.early
    else []
  }

  /** All bytes of tap `t` in a run: those that came while it was being opened, then its output. */
  function Poured(cap: nat, es: seq<Event>, t: TapId): seq<byte>
    decreases |es|
  {
    if es == [] then []
    else Poured(cap, es[..|es| - 1], t) + Brings(Run(Fresh(cap), es[..|es| - 1]), es[|es| - 1], t)
  }

  /** The event ends tap `t`: the broker says so or is gone, during the opening or later, or an owner's CLOSE goes through. */
  predicate Finishes(h: Hub, e: Event, t: TapId) {
    || (e.EEnd? && e.t == t && t < |h.taps|)
    || (e.EGone? && e.t == t && t < |h.taps|)
    || (Opens(h, e, t) && (e.o.dies || e.o.gone))
    || (e.EClose? && Closes(h, e, e.v, e.ch) && h.viewers[e.v].channels[e.ch] == t && t < |h.taps| && (e.ok || !h.taps[t].upstream))
  }

  /** Some event of the run does. */
  predicate Over(cap: nat, es: seq<Event>, t: TapId)
    decreases |es|
  {
    es != [] && (Over(cap, es[..|es| - 1], t) || Finishes(Run(Fresh(cap), es[..|es| - 1]), es[|es| - 1], t))
  }

  // ---------------------------------------------------------------- one event

  /** Tap `t` of `h'` is that of `h` with `more` output, ended or not. */
  predicate Becomes(h: Hub, h': Hub, t: TapId, more: seq<byte>, over: bool) {
    && |h.taps| <= |h'.taps|
    && (t < |h'.taps| ==>
          && h'.taps[t].history == (if t < |h.taps| then h.taps[t].history else []) + more
          && (h'.taps[t].ended <==> (t < |h.taps| && h.taps[t].ended) || over))
  }

  lemma SendBecomes(h: Hub, v: ViewerId, f: Frame, t: TapId)
    ensures Becomes(h, Send(h, v, [f]), t, [], false)
  {
    if t < |h.taps| { Units(h.taps[t].history); }
  }

  lemma EndBecomes(h: Hub, i: TapId, t: TapId)
    ensures Becomes(h, End(h, i), t, [], i == t && t < |h.taps|)
  {
    if t < |h.taps| { Units(h.taps[t].history); }
  }

  lemma GoneBecomes(h: Hub, i: TapId, t: TapId)
    ensures Becomes(h, Gone(h, i), t, [], i == t && t < |h.taps|)
  {
    if i < |h.taps| { EndBecomes(MarkGone(h, i), i, t); }
    if t < |h.taps| { Units(h.taps[t].history); }
  }

  lemma FanBecomes(h: Hub, i: TapId, kind: Kind, body: seq<byte>, t: TapId)
    ensures Becomes(h, FanOut(h, i, kind, body), t, if i == t && t < |h.taps| && !h.taps[t].gone then body else [], false)
  {
    if t < |h.taps| { Units(h.taps[t].history); }
  }

  lemma LeaveBecomes(h: Hub, v: ViewerId, ts: set<TapId>, t: TapId)
    ensures Becomes(h, Leave(h, v, ts), t, [], false)
  {
    if t < |h.taps| { Units(h.taps[t].history); }
  }

  lemma JoinBecomes(h: Hub, v: ViewerId, i: TapId, ch: Channel, t: TapId)
    requires v in h.viewers && i < |h.taps|
    ensures Becomes(h, Join(h, v, i, ch), t, [], false)
  {
    if t < |h.taps| { Units(h.taps[t].history); }
  }

  /** Finding and opening the tap of a session. */
  lemma OpenBecomes(h: Hub, s: string, o: Opening, t: TapId)
    requires s in h.current ==> CurrentOk(h, s)
    ensures var (h1, i) := Find(h, s);
      && i < |h1.taps|
      && var opens := i == t && (t >= |h.taps| || (!h.taps[t].upstream && !h.taps[t].ended));
      Becomes(h, Open(h1, i, o), t, if opens then o.early else [], opens && (o.dies || o.gone))
  {
    if t < |h.taps| { Units(h.taps[t].history); }
    Units(o.early);
  }

  lemma Then(h: Hub, m: Hub, h': Hub, t: TapId, more: seq<byte>, over: bool)
    requires Becomes(h, m, t, more, over) && Becomes(m, h', t, [], false) && |h'.taps| == |m.taps|
    ensures Becomes(h, h', t, more, over)
  {
    if t < |m.taps| { Units(m.taps[t].history); }
  }

  lemma AttachBecomes(h: Hub, v: ViewerId, s: string, ch: Channel, o: Opening, t: TapId)
    requires s in h.current ==> CurrentOk(h, s)
    ensures var e := EAttach(v, s, ch, o);
      Becomes(h, Attach(h, v, s, ch, o), t, if Opens(h, e, t) then o.early else [], Opens(h, e, t) && (o.dies || o.gone))
  {
    if t < |h.taps| { Units(h.taps[t].history); }
    if v in h.viewers && !h.viewers[v].closed {
      if Refuses(h.viewers[v], h.taps, s, ch) {
        SendBecomes(h, v, Attached(ch, false), t);
      } else {
        var (h1, i) := Find(h, s);
        OpenBecomes(h, s, o, t);
        OpenShape(h1, i, o);
        var h2 := Open(h1, i, o);
        var opens := Opens(h, EAttach(v, s, ch, o), t);
        SendBecomes(h2, v, Attached(ch, false), t);
        JoinBecomes(h2, v, i, ch, t);
        Then(h, h2, Send(h2, v, [Attached(ch, false)]), t, if opens then o.early else [], opens && (o.dies || o.gone));
        Then(h, h2, Join(h2, v, i, ch), t, if opens then o.early else [], opens && (o.dies || o.gone));
      }
    }
  }

  lemma DetachBecomes(h: Hub, v: ViewerId, ch: Channel, t: TapId)
    ensures Becomes(h, Detach(h, v, ch), t, [], false)
  {
    if t < |h.taps| { Units(h.taps[t].history); }
    if v in h.viewers && !h.viewers[v].closed {
      if ch in h.viewers[v].channels {
        var w := h.viewers[v];
        var g := h.(viewers := h.viewers[v := w.(channels := w.channels - {ch})]);
        var m := Leave(g, v, {w.channels[ch]});
        LeaveBecomes(g, v, {w.channels[ch]}, t);
        SendBecomes(m, v, Detached(ch, true), t);
        Then(h, m, Send(m, v, [Detached(ch, true)]), t, [], false);
      } else {
        SendBecomes(h, v, Detached(ch, false), t);
      }
    }
  }

  lemma CloseBecomes(h: Hub, v: ViewerId, ch: Channel, owner: bool, ok: bool, t: TapId)
    requires On(h, v, ch) ==> Linked(h, v, ch)
    ensures Becomes(h, Close(h, v, ch, owner, ok), t, [], Finishes(h, EClose(v, ch, owner, ok), t))
  {
    if t < |h.taps| { Units(h.taps[t].history); }
    if v in h.viewers && !h.viewers[v].closed {
      if ch in h.viewers[v].channels && owner {
        assert On(h, v, ch);
        var i, g := h.viewers[v].channels[ch], Shut(h, v, ch);
        SendBecomes(g, v, Failed, t);
        EndBecomes(g, i, t);
        SendBecomes(End(g, i), v, Closed(ch, true), t);
        Then(g, End(g, i), Send(End(g, i), v, [Closed(ch, true)]), t, [], i == t && t < |h.taps|);
      } else {
        SendBecomes(h, v, Closed(ch, false), t);
      }
    }
  }

  lemma DisposeBecomes(h: Hub, v: ViewerId, t: TapId)
    ensures Becomes(h, Dispose(h, v), t, [], false)
  {
    if t < |h.taps| { Units(h.taps[t].history); }
    if v in h.viewers && !h.viewers[v].closed {
      var w := h.viewers[v];
      LeaveBecomes(h.(viewers := h.viewers[v := w.(closed := true, channels := map[])]), v, w.channels.Values, t);
    }
  }

  /** Every event brings a tap exactly what the broker sent with it. */
  lemma StepBecomes(h: Hub, e: Event, t: TapId)
    requires Valid(h)
    ensures Becomes(h, Step(h, e), t, Brings(h, e, t), Finishes(h, e, t))
  {
    match e
    case EConnect(v) => if t < |h.taps| { Units(h.taps[t].history); }
    case EAttach(v, s, ch, o) => AttachBecomes(h, v, s, ch, o, t);
    case EFanOut(i, kind, body) => FanBecomes(h, i, kind, body, t);
    case EEnd(i) => EndBecomes(h, i, t);
    case EGone(i) => GoneBecomes(h, i, t);
    case EDetach(v, ch) => DetachBecomes(h, v, ch, t);
    case EClose(v, ch, owner, ok) => CloseBecomes(h, v, ch, owner, ok, t);
    case EDispose(v) => DisposeBecomes(h, v, t);
  }

  // ---------------------------------------------------------------- every run

  /** A tap that is not there yet has brought nothing and is not over. */
  lemma BringsNothingYet(h: Hub, e: Event, t: TapId)
    requires Valid(h) && t >= |Step(h, e).taps|
    ensures Brings(h, e, t) == [] && !Finishes(h, e, t)
  {
    if Opens(h, e, t) { OpensIsThere(h, e, t); }
  }

  lemma OpensIsThere(h: Hub, e: Event, t: TapId)
    requires Valid(h) && Opens(h, e, t)
    ensures t < |Step(h, e).taps|
  {
    FindKeepsValid(h, e.s);
    OpenShape(Find(h, e.s).0, Find(h, e.s).1, e.o);
  }

  lemma {:induction false} TapsHoldWhatWasSent(cap: nat, es: seq<Event>, t: TapId)
    ensures var h := Run(Fresh(cap), es);
      if t < |h.taps| then h.taps[t].history == Poured(cap, es, t) && (h.taps[t].ended <==> Over(cap, es, t))
      else Poured(cap, es, t) == [] && !Over(cap, es, t)
    decreases |es|
  {
    if es != [] {
      var front, e := es[..|es| - 1], es[|es| - 1];
      var h := Run(Fresh(cap), front);
      TapsHoldWhatWasSent(cap, front, t);
      RunIsValid(Fresh(cap), front);
      StepBecomes(h, e, t);
      if t >= |Step(h, e).taps| { BringsNothingYet(h, e, t); }
    }
  }

  lemma {:induction false} RunAppend(h: Hub, a: seq<Event>, b: seq<Event>)
    ensures Run(h, a + b) == Run(Run(h, a), b)
    decreases |b|
  {
    if b == [] {
      Units(a);
    } else {
      RunAppend(h, a, b[..|b| - 1]);
      assert (a + b)[..|a + b| - 1] == a + b[..|b| - 1];
    }
  }

  lemma StepKeepsCap(h: Hub, e: Event)
    ensures Step(h, e).cap == h.cap
  {
  }

  lemma {:induction false} RunKeepsCap(h: Hub, es: seq<Event>)
    ensures Run(h, es).cap == h.cap
    decreases |es|
  {
    if es != [] {
      RunKeepsCap(h, es[..|es| - 1]);
      StepKeepsCap(Run(h, es[..|es| - 1]), es[|es| - 1]);
    }
  }

  // ---------------------------------------------------------------- the streams, measured against the broker

  /** After `es`, whose first `n` events end with the ATTACH: the channel has carried the snapshot of what tap `t` had sent by then, and all it has sent since. */
  predicate Carries(cap: nat, es: seq<Event>, n: nat, v: ViewerId, ch: Channel, t: TapId) {
    && n <= |es| && var h, was, all := Run(Fresh(cap), es), Poured(cap, es[..n], t), Poured(cap, es, t);
    && On(h, v, ch) && h.viewers[v].channels[ch] == t && was <= all
    && Stream(h.viewers[v].sent, ch) == Snapshot(was, cap) + all[|was|..]
  }

  /** ... and it has been told ENDED exactly if the tap is over. */
  predicate Tells(cap: nat, es: seq<Event>, v: ViewerId, ch: Channel, t: TapId) {
    && var h := Run(Fresh(cap), es);
    && On(h, v, ch) && h.viewers[v].channels[ch] == t
    && (Told(h.viewers[v].sent, ch) <==> Over(cap, es, t))
  }

  lemma CarriesIsComplete(cap: nat, es: seq<Event>, n: nat, k: Sub)
    requires n <= |es| && k.of == Poured(cap, es[..n], k.t)
    ensures Complete(Run(Fresh(cap), es), k) <==> Carries(cap, es, n, k.v, k.ch, k.t)
  {
    var h := Run(Fresh(cap), es);
    RunIsValid(Fresh(cap), es);
    RunKeepsCap(Fresh(cap), es);
    TapsHoldWhatWasSent(cap, es, k.t);
    if On(h, k.v, k.ch) { assert Linked(h, k.v, k.ch); }
  }

  lemma TellsIsRight(cap: nat, es: seq<Event>, k: Sub)
    ensures ToldRight(Run(Fresh(cap), es), k) <==> Tells(cap, es, k.v, k.ch, k.t)
  {
    var h := Run(Fresh(cap), es);
    RunIsValid(Fresh(cap), es);
    TapsHoldWhatWasSent(cap, es, k.t);
    if On(h, k.v, k.ch) { assert Linked(h, k.v, k.ch); }
  }

  ghost predicate CarriesForGood(cap: nat, es: seq<Event>, v: ViewerId, ch: Channel, t: TapId) {
    forall more :: StaysOn(Run(Fresh(cap), es), more, v, ch) ==> Carries(cap, es + more, |es|, v, ch, t)
  }

  ghost predicate TellsForGood(cap: nat, es: seq<Event>, v: ViewerId, ch: Channel, t: TapId) {
    forall more :: StaysOn(Run(Fresh(cap), es), more, v, ch) ==> Tells(cap, es + more, v, ch, t)
  }

  lemma SameForGood(cap: nat, es: seq<Event>, k: Sub)
    requires k.of == Poured(cap, es, k.t)
    ensures CompleteForGood(Run(Fresh(cap), es), k) <==> CarriesForGood(cap, es, k.v, k.ch, k.t)
    ensures ToldForGood(Run(Fresh(cap), es), k) <==> TellsForGood(cap, es, k.v, k.ch, k.t)
  {
    var h := Run(Fresh(cap), es);
    forall more: seq<Event>
      ensures Complete(Run(h, more), k) <==> Carries(cap, es + more, |es|, k.v, k.ch, k.t)
      ensures ToldRight(Run(h, more), k) <==> Tells(cap, es + more, k.v, k.ch, k.t)
    {
      RunAppend(Fresh(cap), es, more);
      assert (es + more)[..|es|] == es;
      CarriesIsComplete(cap, es + more, |es|, k);
      TellsIsRight(cap, es + more, k);
    }
  }

  /**
   * In every run: from an accepted ATTACH on, as long as it stays attached and whatever else happens, the
   * channel carries the snapshot of what the broker had sent for the session followed by all it sends, and
   * nothing else, if and only if no other tap whose broker connection lasts lists the viewer under it.
   */
  lemma DeliversWhatWasSent(cap: nat, es: seq<Event>, v: ViewerId, s: string, ch: Channel, o: Opening)
    requires Accepts(Run(Fresh(cap), es), v, s, ch, o)
    ensures var h := Run(Fresh(cap), es);
      CarriesForGood(cap, es + [EAttach(v, s, ch, o)], v, ch, Find(h, s).1) <==> Unclaimed(h, v, s, ch)
  {
    var h, es' := Run(Fresh(cap), es), es + [EAttach(v, s, ch, o)];
    var k := BegunIsPoured(cap, es, v, s, ch, o);
    StreamsAreComplete(cap, es, v, s, ch, o);
    SameForGood(cap, es', k);
  }

  /** ... and its viewer has been told ENDED exactly if the broker, or an owner, ended the session. */
  lemma TellsWhatHappened(cap: nat, es: seq<Event>, v: ViewerId, s: string, ch: Channel, o: Opening)
    requires Accepts(Run(Fresh(cap), es), v, s, ch, o)
    ensures var h, es', t := Run(Fresh(cap), es), es + [EAttach(v, s, ch, o)], Find(Run(Fresh(cap), es), s).1;
      TellsForGood(cap, es', v, ch, t) <==> Over(cap, es', t) || Hushed(h, v, s, ch)
  {
    var es' := es + [EAttach(v, s, ch, o)];
    var k := BegunIsPoured(cap, es, v, s, ch, o);
    EndsAreTold(cap, es, v, s, ch, o);
    SameForGood(cap, es', k);
    TapsHoldWhatWasSent(cap, es', k.t);
  }

  lemma BegunIsPoured(cap: nat, es: seq<Event>, v: ViewerId, s: string, ch: Channel, o: Opening) returns (k: Sub)
    requires Accepts(Run(Fresh(cap), es), v, s, ch, o)
    ensures Valid(Run(Fresh(cap), es))
    ensures var h, e := Run(Fresh(cap), es), EAttach(v, s, ch, o);
      && k == Begun(h, v, s, ch, o) && k.v == v && k.ch == ch && k.t == Find(h, s).1
      && k.of == Poured(cap, es + [e], k.t) && Run(Fresh(cap), es + [e]) == Step(h, e)
  {
    var h, e := Run(Fresh(cap), es), EAttach(v, s, ch, o);
    RunIsValid(Fresh(cap), es);
    k := Begun(h, v, s, ch, o);
    AttachJoins(h, v, s, ch, o);
    RunSnoc(Fresh(cap), es, e);
    TapsHoldWhatWasSent(cap, es + [e], k.t);
  }

  /** Runs that never attach again on a closed channel: every attached channel is right, measured against the broker. */
  lemma RightFromTheBroker(cap: nat, es: seq<Event>, v: ViewerId, ch: Channel) returns (t: TapId, n: nat)
    requires NeverReuses(cap, es) && On(Run(Fresh(cap), es), v, ch)
    ensures 0 < n <= |es| && es[n - 1].EAttach? && es[n - 1].v == v && es[n - 1].ch == ch
    ensures Carries(cap, es, n, v, ch, t) && Tells(cap, es, v, ch, t)
  {
    var k, i := RightWithoutReuse(cap, es, v, ch);
    t, n := k.t, i + 1;
    TapsHoldWhatWasSent(cap, es[..n], t);
    CarriesIsComplete(cap, es, n, k);
    TellsIsRight(cap, es, k);
  }
}
