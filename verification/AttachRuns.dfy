/**
 * Whole runs of the attach hub (src/host/attachHub.ts): when a viewer's stream can be trusted.
 * A CLOSE leaves the viewer in the tap's list under the closed channel, so a later ATTACH on the
 * same channel may be crossed by the first session's output and end.
 */
module AttachRuns {
  import opened Prelude
  import opened Replay
  import opened AttachStreams
  import opened AttachEnds

  lemma RunOne(h: Hub, e: Event)
    ensures Run(h, [e]) == Step(h, e)
  {
    assert [e][..0] == [];
  }

  lemma StaysOnOne(h: Hub, e: Event, v: ViewerId, ch: Channel)
    requires On(h, v, ch) && On(Step(h, e), v, ch)
    ensures StaysOn(h, [e], v, ch)
  {
    RunOne(h, e);
    forall i | 0 <= i <= 1 ensures On(Run(h, [e][..i]), v, ch) {
      if i == 0 { assert [e][..0] == []; } else { assert [e][..1] == [e]; }
    }
  }

  // ---------------------------------------------------------------- exactly when a stream stays right

  ghost predicate CompleteForGood(h: Hub, k: Sub) {
    forall es :: StaysOn(h, es, k.v, k.ch) ==> Complete(Run(h, es), k)
  }

  ghost predicate ToldForGood(h: Hub, k: Sub) {
    forall es :: StaysOn(h, es, k.v, k.ch) ==> ToldRight(Run(h, es), k)
  }

  /** Output of another tap that feeds the channel lands in the stream. */
  lemma OutputCrosses(h: Hub, t: TapId, k: Sub, kind: Kind, body: seq<byte>)
    requires Complete(h, k) && Feeds(h, t, k.v, k.ch) && t != k.t && body != []
    ensures var h' := FanOut(h, t, kind, body);
      && On(h', k.v, k.ch) && !Complete(h', k) && h'.taps[k.t] == h.taps[k.t]
      && Stream(h'.viewers[k.v].sent, k.ch) == Stream(h.viewers[k.v].sent, k.ch) + body
  {
    StreamSnoc(h.viewers[k.v].sent, Data(k.ch, kind, body), k.ch);
  }

  /** A complete stream stays complete while attached, whatever happens, exactly if no other tap feeds it. */
  lemma CompleteExactly(h: Hub, k: Sub)
    requires Valid(h) && Complete(h, k)
    ensures CompleteForGood(h, k) <==> Clear(h, k.v, k.ch, k.t)
  {
    if Clear(h, k.v, k.ch, k.t) {
      forall es | StaysOn(h, es, k.v, k.ch) ensures Complete(Run(h, es), k) { RunFine(h, es, k); }
    } else {
      var t :| Feeds(h, t, k.v, k.ch) && t != k.t;
      var e := EFanOut(t, Output, [0]);
      OutputCrosses(h, t, k, Output, [0]);
      StaysOnOne(h, e, k.v, k.ch);
      RunOne(h, e);
      assert !Complete(Run(h, [e]), k);
    }
  }

  /** The same for ENDED; here only other taps that have not ended matter. */
  lemma ToldExactly(h: Hub, k: Sub)
    requires Valid(h) && ToldRight(h, k)
    ensures ToldForGood(h, k) <==> Quiet(h, k)
  {
    if Quiet(h, k) {
      forall es | StaysOn(h, es, k.v, k.ch) ensures ToldRight(Run(h, es), k) { RunSure(h, es, k); }
    } else {
      var t: TapId :| Lists(h, t, k.v, k.ch) && !h.taps[t].ended && t != k.t;
      var e := EEnd(t);
      EndTells(h, t, k.v, k.ch);
      StaysOnOne(h, e, k.v, k.ch);
      RunOne(h, e);
      assert !ToldRight(Run(h, [e]), k);
    }
  }

  // ---------------------------------------------------------------- what can be checked at ATTACH

  /** ATTACH of `s` on `ch` is going to succeed. */
  predicate Accepts(h: Hub, v: ViewerId, s: string, ch: Channel, o: Opening) {
    && v in h.viewers && !h.viewers[v].closed && !Refuses(h.viewers[v], h.taps, s, ch)
    && ((s in h.current && h.current[s] < |h.taps| && h.taps[h.current[s]].upstream) || o.ok)
  }

  lemma OpenLists(h: Hub, s: string, o: Opening, t: TapId, v: ViewerId, ch: Channel)
    requires (s in h.current ==> CurrentOk(h, s)) && Find(h, s).1 < |Find(h, s).0.taps|
    ensures Lists(Open(Find(h, s).0, Find(h, s).1, o), t, v, ch) <==> Lists(h, t, v, ch)
  {
  }

  /** What an accepted ATTACH makes of the hub. */
  function Begun(h: Hub, v: ViewerId, s: string, ch: Channel, o: Opening): (k: Sub)
    requires Valid(h) && Accepts(h, v, s, ch, o)
  {
    var t := Find(h, s).1;
    FindKeepsValid(h, s);
    OpenShape(Find(h, s).0, t, o);
    Sub(v, ch, t, Open(Find(h, s).0, t, o).taps[t].history)
  }

  /** It joins the session's tap, and stream and end begin right. */
  lemma AttachJoins(h: Hub, v: ViewerId, s: string, ch: Channel, o: Opening)
    requires Valid(h) && Accepts(h, v, s, ch, o)
    ensures var h', k := Attach(h, v, s, ch, o), Begun(h, v, s, ch, o);
      && Complete(h', k) && ToldRight(h', k) && h'.taps[k.t].session == s && h'.taps[k.t].history == k.of
      && (forall u :: u in h.viewers && u != v ==> u in h'.viewers && h'.viewers[u] == h.viewers[u])
  {
    var (h1, own) := Find(h, s);
    FindKeepsValid(h, s);
    OpenShape(h1, own, o);
    var h2 := Open(h1, own, o);
    if s in h.current { assert CurrentOk(h, s); }
    assert Attach(h, v, s, ch, o) == Join(h2, v, own, ch);
    JoinStarts(h2, v, own, ch);
    JoinTells(h2.viewers[v], ch, Snapshot(h2.taps[own].history, h2.cap), h2.taps[own].ended, ch);
  }

  /** ... and lists nobody else. */
  lemma AttachLists(h: Hub, v: ViewerId, s: string, ch: Channel, o: Opening, t: TapId)
    requires Valid(h) && Accepts(h, v, s, ch, o)
    ensures var h', k := Attach(h, v, s, ch, o), Begun(h, v, s, ch, o);
      && (Lists(h', t, v, ch) <==> t == k.t || Lists(h, t, v, ch))
      && (Lists(h, t, v, ch) && t != k.t ==> h'.taps[t].ended == h.taps[t].ended && h'.taps[t].gone == h.taps[t].gone)
  {
    var (h1, own) := Find(h, s);
    FindKeepsValid(h, s);
    OpenShape(h1, own, o);
    if s in h.current { assert CurrentOk(h, s); }
    assert Attach(h, v, s, ch, o) == Join(Open(h1, own, o), v, own, ch);
    OpenLists(h, s, o, t, v, ch);
  }

  /** Otherwise ATTACH only sends its refusal. */
  lemma AttachRefused(h: Hub, v: ViewerId, s: string, ch: Channel, o: Opening)
    requires Valid(h) && v in h.viewers && !h.viewers[v].closed && !Accepts(h, v, s, ch, o)
    ensures var w := h.viewers[v];
      Attach(h, v, s, ch, o).viewers == h.viewers[v := w.(sent := w.sent + [Attached(ch, false)])]
  {
    if !Refuses(h.viewers[v], h.taps, s, ch) {
      FindKeepsValid(h, s);
      OpenShape(Find(h, s).0, Find(h, s).1, o);
      if s in h.current { assert CurrentOk(h, s); }
    }
  }

  /** No tap but the session's own feeds `v` on `ch`. */
  ghost predicate Unclaimed(h: Hub, v: ViewerId, s: string, ch: Channel) {
    forall t :: Feeds(h, t, v, ch) ==> t == Find(h, s).1
  }

  lemma UnclaimedIsClear(h: Hub, v: ViewerId, s: string, ch: Channel, o: Opening)
    requires Valid(h) && Accepts(h, v, s, ch, o)
    ensures Clear(Attach(h, v, s, ch, o), v, ch, Begun(h, v, s, ch, o).t) <==> Unclaimed(h, v, s, ch)
  {
    var h', k := Attach(h, v, s, ch, o), Begun(h, v, s, ch, o);
    forall t: TapId ensures Feeds(h', t, v, ch) && t != k.t <==> Feeds(h, t, v, ch) && t != k.t {
      AttachLists(h, v, s, ch, o, t);
    }
  }

  /**
   * In every run: from an accepted ATTACH on, for as long as it stays attached and whatever else
   * happens, the channel carries the snapshot of the output so far followed by all output since and
   * nothing else, if and only if no other tap whose broker connection lasts lists the viewer under the
   * channel at that moment.
   */
  lemma StreamsAreComplete(cap: nat, es: seq<Event>, v: ViewerId, s: string, ch: Channel, o: Opening)
    requires Accepts(Run(Fresh(cap), es), v, s, ch, o)
    ensures Valid(Run(Fresh(cap), es))
    ensures var h := Run(Fresh(cap), es);
      CompleteForGood(Step(h, EAttach(v, s, ch, o)), Begun(h, v, s, ch, o)) <==> Unclaimed(h, v, s, ch)
  {
    var h := Run(Fresh(cap), es);
    RunIsValid(Fresh(cap), es);
    var k, h' := Begun(h, v, s, ch, o), Step(h, EAttach(v, s, ch, o));
    AttachJoins(h, v, s, ch, o);
    StepKeepsValid(h, EAttach(v, s, ch, o));
    CompleteExactly(h', k);
    UnclaimedIsClear(h, v, s, ch, o);
  }

  /** No tap but the session's own that can still end lists `v` under `ch`. */
  ghost predicate Hushed(h: Hub, v: ViewerId, s: string, ch: Channel) {
    forall t: TapId :: Lists(h, t, v, ch) && !h.taps[t].ended ==> t == Find(h, s).1
  }

  lemma HushedIsQuiet(h: Hub, v: ViewerId, s: string, ch: Channel, o: Opening)
    requires Valid(h) && Accepts(h, v, s, ch, o)
    ensures var h', k := Attach(h, v, s, ch, o), Begun(h, v, s, ch, o);
      k.t < |h'.taps| && (Quiet(h', k) <==> h'.taps[k.t].ended || Hushed(h, v, s, ch))
  {
    var h', k := Attach(h, v, s, ch, o), Begun(h, v, s, ch, o);
    AttachJoins(h, v, s, ch, o);
    forall t: TapId ensures Lists(h', t, v, ch) <==> t == k.t || Lists(h, t, v, ch) { AttachLists(h, v, s, ch, o, t); }
    forall t: TapId | Lists(h, t, v, ch) && t != k.t ensures t < |h'.taps| && h'.taps[t].ended == h.taps[t].ended {
      AttachLists(h, v, s, ch, o, t);
    }
  }

  /**
   * ... and, likewise, it has been told ENDED exactly if its session has ended, if and only if the
   * session was over at once or no other live tap lists the viewer under the channel.
   */
  lemma EndsAreTold(cap: nat, es: seq<Event>, v: ViewerId, s: string, ch: Channel, o: Opening)
    requires Accepts(Run(Fresh(cap), es), v, s, ch, o)
    ensures Valid(Run(Fresh(cap), es))
    ensures var h := Run(Fresh(cap), es);
      var k, h' := Begun(h, v, s, ch, o), Step(h, EAttach(v, s, ch, o));
      k.t < |h'.taps| && (ToldForGood(h', k) <==> h'.taps[k.t].ended || Hushed(h, v, s, ch))
  {
    var h := Run(Fresh(cap), es);
    RunIsValid(Fresh(cap), es);
    AttachJoins(h, v, s, ch, o);
    StepKeepsValid(h, EAttach(v, s, ch, o));
    ToldExactly(Step(h, EAttach(v, s, ch, o)), Begun(h, v, s, ch, o));
    HushedIsQuiet(h, v, s, ch, o);
  }

  // ---------------------------------------------------------------- what the other requests do

  predicate OpenViewer(h: Hub, v: ViewerId) { v in h.viewers && !h.viewers[v].closed }

  /** The same hub but for one viewer's channels and frames. */
  predicate OnlyViewer(h: Hub, h': Hub, v: ViewerId, channels: map<Channel, TapId>, sent: seq<Frame>)
    requires v in h.viewers
  {
    h'.viewers == h.viewers[v := h.viewers[v].(channels := channels, sent := sent)]
  }

  /** DETACH takes an attached channel, and the viewer off its tap; the last one to leave drops the upstream. */
  lemma DetachExactly(h: Hub, v: ViewerId, ch: Channel)
    requires OpenViewer(h, v) && (On(h, v, ch) ==> Linked(h, v, ch))
    ensures var w, h' := h.viewers[v], Step(h, EDetach(v, ch));
      if ch !in w.channels then h'.taps == h.taps && OnlyViewer(h, h', v, w.channels, w.sent + [Detached(ch, false)])
      else
        && OnlyViewer(h, h', v, w.channels - {ch}, w.sent + [Detached(ch, true)])
        && |h'.taps| == |h.taps| && (forall i :: 0 <= i < |h.taps| && i != w.channels[ch] ==> h'.taps[i] == h.taps[i])
        && var tap, tap' := h.taps[w.channels[ch]], h'.taps[w.channels[ch]];
        && tap'.viewers == tap.viewers - {v} && tap'.history == tap.history && tap'.ended == tap.ended
        && (tap'.upstream <==> tap.upstream && tap'.viewers.Keys != {})
  {
    if ch in h.viewers[v].channels {
      var w, t := h.viewers[v], h.viewers[v].channels[ch];
      assert On(h, v, ch) && Lists(h, t, v, ch);
      var left := h.taps[t].viewers - {v};
      assert |left| == |left.Keys|;
      assert left.Keys == {} <==> |left| == 0;
    }
  }

  /** CLOSE by the owner takes the channel and ends the session for everybody, if the broker answers; by others it is refused. */
  lemma CloseExactly(h: Hub, v: ViewerId, ch: Channel, owner: bool, ok: bool)
    requires OpenViewer(h, v) && (On(h, v, ch) ==> Linked(h, v, ch))
    ensures var w, h' := h.viewers[v], Step(h, EClose(v, ch, owner, ok));
      && v in h'.viewers && h'.viewers[v].sent != []
      && var last := h'.viewers[v].sent[|h'.viewers[v].sent| - 1];
      if !owner || ch !in w.channels then h'.taps == h.taps && OnlyViewer(h, h', v, w.channels, w.sent + [Closed(ch, false)])
      else
        && h'.viewers[v].channels == w.channels - {ch} && |h'.taps| == |h.taps|
        && (forall i :: 0 <= i < |h.taps| && i != w.channels[ch] ==> h'.taps[i] == h.taps[i])
        && (if ok || !h.taps[w.channels[ch]].upstream then h'.taps[w.channels[ch]].ended && last == Closed(ch, true)
            else h'.taps == h.taps && last == Failed)
  {
    if owner && ch in h.viewers[v].channels { assert On(h, v, ch); }
  }

  /** A viewer whose connection closes gets nothing more and is on none of the taps it was attached to. */
  lemma DisposeExactly(h: Hub, v: ViewerId)
    requires OpenViewer(h, v)
    ensures var w, h' := h.viewers[v], Step(h, EDispose(v));
      && h'.viewers == h.viewers[v := w.(closed := true, channels := map[])] && |h'.taps| == |h.taps|
      && (forall c :: c in w.channels && w.channels[c] < |h.taps| ==> v !in h'.taps[w.channels[c]].viewers)
      && (forall i :: 0 <= i < |h.taps| && i !in w.channels.Values ==> h'.taps[i] == h.taps[i])
  {
    var w, h' := h.viewers[v], Step(h, EDispose(v));
    forall c | c in w.channels && w.channels[c] < |h.taps| ensures v !in h'.taps[w.channels[c]].viewers {
      assert w.channels[c] in w.channels.Values;
    }
  }

  // ---------------------------------------------------------------- channels that are not used again

  /** CLOSE by the owner on an attached channel. */
  predicate Closes(h: Hub, e: Event, v: ViewerId, ch: Channel) {
    e.EClose? && e.v == v && e.ch == ch && e.owner && On(h, v, ch)
  }

  /** Some event of the run is one. */
  predicate ClosedIn(h: Hub, es: seq<Event>, v: ViewerId, ch: Channel)
    decreases |es|
  {
    es != [] && (ClosedIn(h, es[..|es| - 1], v, ch) || Closes(Run(h, es[..|es| - 1]), es[|es| - 1], v, ch))
  }

  /** `shut` holds exactly the channels on which an owner's CLOSE found something attached. */
  lemma {:induction false} ShutMeansClosed(cap: nat, es: seq<Event>, v: ViewerId, ch: Channel)
    ensures (v, ch) in Run(Fresh(cap), es).shut <==> ClosedIn(Fresh(cap), es, v, ch)
    decreases |es|
  {
    if es != [] {
      var front := es[..|es| - 1];
      ShutMeansClosed(cap, front, v, ch);
      RunIsValid(Fresh(cap), front);
      StepShuts(Run(Fresh(cap), front), es[|es| - 1], v, ch);
    }
  }

  lemma StepShuts(h: Hub, e: Event, v: ViewerId, ch: Channel)
    requires Valid(h)
    ensures (v, ch) in Step(h, e).shut <==> (v, ch) in h.shut || Closes(h, e, v, ch)
  {
    if On(h, v, ch) { assert Linked(h, v, ch); }
    match e
    case EClose(u, c, owner, ok) =>
    case EAttach(u, s, c, o) => AttachShuts(h, u, s, c, o);
    case _ =>
  }

  lemma AttachShuts(h: Hub, v: ViewerId, s: string, ch: Channel, o: Opening)
    ensures Attach(h, v, s, ch, o).shut == h.shut
  {
  }

  /** Nobody else's leftovers are on a channel that was never closed. */
  lemma UnusedIsUnclaimed(h: Hub, v: ViewerId, s: string, ch: Channel, o: Opening)
    requires Valid(h) && Accepts(h, v, s, ch, o) && (v, ch) !in h.shut
    ensures forall t :: !Lists(h, t, v, ch)
  {
  }

  /** No ATTACH asks for a channel on which the viewer's CLOSE was accepted before. */
  predicate NeverReuses(cap: nat, es: seq<Event>) {
    forall i :: 0 <= i < |es| && es[i].EAttach? ==> (es[i].v, es[i].ch) !in Run(Fresh(cap), es[..i]).shut
  }

  lemma OthersAttachNothing(h: Hub, e: Event, v: ViewerId, ch: Channel)
    requires !e.EAttach? && On(Step(h, e), v, ch)
    ensures On(h, v, ch)
  {
  }

  lemma NewlyOn(h: Hub, e: Event, v: ViewerId, ch: Channel)
    requires Valid(h) && !On(h, v, ch) && On(Step(h, e), v, ch)
    ensures e.EAttach? && e.v == v && e.ch == ch && Accepts(h, v, e.s, ch, e.o)
  {
    if !e.EAttach? {
      OthersAttachNothing(h, e, v, ch);
    } else if Accepts(h, e.v, e.s, e.ch, e.o) {
      AttachChannels(h, e.v, e.s, e.ch, e.o);
    } else if e.v in h.viewers && !h.viewers[e.v].closed {
      AttachRefused(h, e.v, e.s, e.ch, e.o);
    }
  }

  lemma AttachChannels(h: Hub, v: ViewerId, s: string, ch: Channel, o: Opening)
    requires Valid(h) && Accepts(h, v, s, ch, o)
    ensures var h' := Attach(h, v, s, ch, o);
      && h'.viewers.Keys == h.viewers.Keys && h'.viewers[v].channels.Keys == h.viewers[v].channels.Keys + {ch}
      && (forall u :: u in h.viewers && u != v ==> h'.viewers[u] == h.viewers[u])
  {
    var (h1, own) := Find(h, s);
    FindKeepsValid(h, s);
    OpenShape(h1, own, o);
    if s in h.current { assert CurrentOk(h, s); }
    assert Attach(h, v, s, ch, o) == Join(Open(h1, own, o), v, own, ch);
  }

  /** `k` began with event `i`: its ATTACH, the session's tap, and that tap's output at the time. */
  ghost predicate Since(h: Hub, es: seq<Event>, k: Sub, i: nat) {
    && i < |es| && es[i].EAttach? && es[i].v == k.v && es[i].ch == k.ch
    && var g := Run(h, es[..i + 1]);
    k.t < |g.taps| && g.taps[k.t].session == es[i].s && g.taps[k.t].history == k.of
  }

  lemma SinceGrows(h: Hub, es: seq<Event>, k: Sub, i: nat)
    requires es != [] && Since(h, es[..|es| - 1], k, i)
    ensures Since(h, es, k, i)
  {
    assert es[..|es| - 1][..i + 1] == es[..i + 1];
  }

  /**
   * In every run that never attaches again on a closed channel, every attached channel carries
   * exactly the snapshot at its own ATTACH followed by all output since, and its ENDED is right.
   */
  lemma {:induction false} RightWithoutReuse(cap: nat, es: seq<Event>, v: ViewerId, ch: Channel) returns (k: Sub, i: nat)
    requires NeverReuses(cap, es) && On(Run(Fresh(cap), es), v, ch)
    ensures k.v == v && k.ch == ch && Since(Fresh(cap), es, k, i)
    ensures Fine(Run(Fresh(cap), es), k) && Sure(Run(Fresh(cap), es), k)
    decreases |es|
  {
    var front, e := es[..|es| - 1], es[|es| - 1];
    if On(Run(Fresh(cap), front), v, ch) {
      ReusesPrefix(cap, es);
      k, i := RightWithoutReuse(cap, front, v, ch);
      SinceGrows(Fresh(cap), es, k, i);
      StepRight(cap, front, e, k);
    } else {
      k, i := RightFromHere(cap, es, v, ch);
    }
  }

  lemma StepRight(cap: nat, es: seq<Event>, e: Event, k: Sub)
    requires Fine(Run(Fresh(cap), es), k) && Sure(Run(Fresh(cap), es), k) && On(Step(Run(Fresh(cap), es), e), k.v, k.ch)
    ensures Fine(Step(Run(Fresh(cap), es), e), k) && Sure(Step(Run(Fresh(cap), es), e), k)
  {
    var h := Run(Fresh(cap), es);
    RunIsValid(Fresh(cap), es);
    StepFine(h, e, k);
    StepSure(h, e, k);
  }

  lemma RightFromHere(cap: nat, es: seq<Event>, v: ViewerId, ch: Channel) returns (k: Sub, i: nat)
    requires es != [] && NeverReuses(cap, es) && On(Run(Fresh(cap), es), v, ch)
    requires !On(Run(Fresh(cap), es[..|es| - 1]), v, ch)
    ensures k.v == v && k.ch == ch && Since(Fresh(cap), es, k, i)
    ensures Fine(Run(Fresh(cap), es), k) && Sure(Run(Fresh(cap), es), k)
  {
    i := |es| - 1;
    var h, e := Run(Fresh(cap), es[..i]), es[i];
    RunIsValid(Fresh(cap), es[..i]);
    NewlyOn(h, e, v, ch);
    k := Begun(h, v, e.s, ch, e.o);
    BeginsRight(h, v, e.s, ch, e.o);
    assert es[..i + 1] == es;
  }

  lemma ReusesPrefix(cap: nat, es: seq<Event>)
    requires NeverReuses(cap, es) && es != []
    ensures NeverReuses(cap, es[..|es| - 1])
  {
    var front := es[..|es| - 1];
    forall i | 0 <= i < |front| && front[i].EAttach? ensures (front[i].v, front[i].ch) !in Run(Fresh(cap), front[..i]).shut {
      assert front[..i] == es[..i] && front[i] == es[i];
    }
  }

  lemma BeginsRight(h: Hub, v: ViewerId, s: string, ch: Channel, o: Opening)
    requires Valid(h) && Accepts(h, v, s, ch, o) && (v, ch) !in h.shut
    ensures var h', k := Step(h, EAttach(v, s, ch, o)), Begun(h, v, s, ch, o);
      Fine(h', k) && Sure(h', k) && h'.taps[k.t].session == s && h'.taps[k.t].history == k.of
  {
    AttachJoins(h, v, s, ch, o);
    UnusedIsUnclaimed(h, v, s, ch, o);
    UnclaimedIsClear(h, v, s, ch, o);
    HushedIsQuiet(h, v, s, ch, o);
  }

  // ---------------------------------------------------------------- a run that crosses two sessions

  lemma RunSnoc(h: Hub, es: seq<Event>, e: Event)
    ensures Run(h, es + [e]) == Step(Run(h, es), e)
  {
    assert (es + [e])[..|es|] == es;
  }

  const Opens: Opening := Opening(true, [], false, false)

  /** Attach `a`, close it (whether or not the broker answers), attach `b` on the same channel. */
  function Reuse(v: ViewerId, ch: Channel, a: string, b: string, ok: bool): seq<Event> {
    [EConnect(v)] + [EAttach(v, a, ch, Opens)] + [EClose(v, ch, true, ok)] + [EAttach(v, b, ch, Opens)]
  }

  /** After the first three: the channel is free again, and the tap lists it. */
  predicate Left(h: Hub, v: ViewerId, ch: Channel, a: string, ok: bool) {
    && h.taps == [Tap(a, [], map[v := ch], !ok, ok, false)] && (forall s :: s in h.current ==> s == a)
    && v in h.viewers && h.viewers[v].channels == map[] && !h.viewers[v].closed
  }

  lemma CloseLeaves(cap: nat, v: ViewerId, ch: Channel, a: string, ok: bool)
    ensures Left(Run(Fresh(cap), [EConnect(v)] + [EAttach(v, a, ch, Opens)] + [EClose(v, ch, true, ok)]), v, ch, a, ok)
  {
    var es1 := [EConnect(v)];
    RunOne(Fresh(cap), EConnect(v));
    var h1 := Run(Fresh(cap), es1);
    RunSnoc(Fresh(cap), es1, EAttach(v, a, ch, Opens));
    var h2 := Step(h1, EAttach(v, a, ch, Opens));
    assert h2.taps == [Tap(a, [], map[v := ch], true, false, false)] && h2.current == map[a := 0];
    assert h2.viewers[v].channels == map[ch := 0] && !h2.viewers[v].closed && h2.viewers.Keys == {v};
    RunSnoc(Fresh(cap), es1 + [EAttach(v, a, ch, Opens)], EClose(v, ch, true, ok));
  }

  lemma ReuseState(cap: nat, v: ViewerId, ch: Channel, a: string, b: string, ok: bool)
    requires a != b
    ensures var h, k := Run(Fresh(cap), Reuse(v, ch, a, b, ok)), Sub(v, ch, 1, []);
      && |h.taps| == 2 && Feeds(h, 0, v, ch) && h.taps[0].session == a && h.taps[0].ended == ok
      && h.taps[1].session == b && h.taps[1].history == [] && !h.taps[1].ended
      && Complete(h, k) && ToldRight(h, k)
  {
    var es := [EConnect(v)] + [EAttach(v, a, ch, Opens)] + [EClose(v, ch, true, ok)];
    CloseLeaves(cap, v, ch, a, ok);
    RunSnoc(Fresh(cap), es, EAttach(v, b, ch, Opens));
    RunIsValid(Fresh(cap), es);
    var h := Run(Fresh(cap), es);
    AttachJoins(h, v, b, ch, Opens);
    AttachLists(h, v, b, ch, Opens, 0);
  }

  /** Output of the first session then reaches the viewer as if it were the second's. */
  lemma ReusedChannelCrosses(cap: nat, v: ViewerId, ch: Channel, a: string, b: string, ok: bool, body: seq<byte>)
    requires a != b && body != []
    ensures var h := Run(Fresh(cap), Reuse(v, ch, a, b, ok) + [EFanOut(0, Output, body)]);
      && On(h, v, ch) && h.viewers[v].channels[ch] == 1 < |h.taps| && h.taps[1].session == b && h.taps[1].history == []
      && Stream(h.viewers[v].sent, ch) == body
  {
    var es := Reuse(v, ch, a, b, ok);
    ReuseState(cap, v, ch, a, b, ok);
    RunSnoc(Fresh(cap), es, EFanOut(0, Output, body));
    var k := Sub(v, ch, 1, []);
    OutputCrosses(Run(Fresh(cap), es), 0, k, Output, body);
    assert Snapshot([], cap) == [];
    Units(body);
  }

  /** So does its end, if the broker had not answered the CLOSE. */
  lemma ReusedChannelEnds(cap: nat, v: ViewerId, ch: Channel, a: string, b: string)
    requires a != b
    ensures var h := Run(Fresh(cap), Reuse(v, ch, a, b, false) + [EEnd(0)]);
      && On(h, v, ch) && h.viewers[v].channels[ch] == 1 < |h.taps| && h.taps[1].session == b && !h.taps[1].ended
      && Told(h.viewers[v].sent, ch)
  {
    var es := Reuse(v, ch, a, b, false);
    ReuseState(cap, v, ch, a, b, false);
    RunSnoc(Fresh(cap), es, EEnd(0));
    EndTells(Run(Fresh(cap), es), 0, v, ch);
  }
}
