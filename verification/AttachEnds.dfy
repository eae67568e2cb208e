/** ENDED frames (src/host/attachHub.ts SessionTap.end, Viewer.attach): who is told that a session is over. */
module AttachEnds {
  import opened Prelude
  import opened Replay
  import opened AttachStreams

  /** An ENDED for `ch` has come since it was last attached. */
  function Told(fs: seq<Frame>, ch: Channel): bool
    decreases |fs|
  {
    if fs == [] then false
    else
      var f := fs[|fs| - 1];
      if f == Attached(ch, true) then false
      else f == Ended(ch) || Told(fs[..|fs| - 1], ch)
  }

  lemma ToldSnoc(fs: seq<Frame>, f: Frame, ch: Channel)
    ensures Told(fs + [f], ch) == if f == Attached(ch, true) then false else f == Ended(ch) || Told(fs, ch)
  {
    assert (fs + [f])[..|fs|] == fs;
  }

  /** The viewer has been told ENDED exactly if its tap has ended. */
  predicate ToldRight(h: Hub, k: Sub) { Attachment(h, k) && (Told(h.viewers[k.v].sent, k.ch) <==> h.taps[k.t].ended) }

  /** No other tap that can still end lists the viewer under the channel, or the end is known already. */
  ghost predicate Quiet(h: Hub, k: Sub)
    requires k.t < |h.taps|
  {
    h.taps[k.t].ended || forall i: TapId :: Lists(h, i, k.v, k.ch) && !h.taps[i].ended ==> i == k.t
  }

  ghost predicate Sure(h: Hub, k: Sub) { ToldRight(h, k) && Quiet(h, k) }

  // ---------------------------------------------------------------- one operation

  /** Nobody new is listed under the channel, and what has ended stays so. */
  lemma StillQuiet(h: Hub, h': Hub, k: Sub)
    requires k.t < |h.taps| <= |h'.taps| && Quiet(h, k)
    requires forall i :: 0 <= i < |h.taps| && h.taps[i].ended ==> h'.taps[i].ended
    requires forall i: TapId :: Lists(h', i, k.v, k.ch) ==> Lists(h, i, k.v, k.ch)
    ensures Quiet(h', k)
  {
  }

  /** The viewer's links and news are the same, and so are the lists and ends of all taps. */
  lemma SureStays(h: Hub, h': Hub, k: Sub)
    requires Sure(h, k) && k.v in h'.viewers && |h'.taps| == |h.taps|
    requires h'.viewers[k.v].channels == h.viewers[k.v].channels && h'.viewers[k.v].closed == h.viewers[k.v].closed
    requires Told(h'.viewers[k.v].sent, k.ch) == Told(h.viewers[k.v].sent, k.ch)
    requires forall i :: 0 <= i < |h.taps| ==> h'.taps[i].viewers == h.taps[i].viewers && h'.taps[i].ended == h.taps[i].ended
    ensures Sure(h', k)
  {
    StillQuiet(h, h', k);
  }

  lemma SendSure(h: Hub, u: ViewerId, f: Frame, k: Sub)
    requires Sure(h, k) && f != Ended(k.ch) && f != Attached(k.ch, true)
    ensures Sure(Send(h, u, [f]), k)
  {
    ToldSnoc(h.viewers[k.v].sent, f, k.ch);
    SureStays(h, Send(h, u, [f]), k);
  }

  lemma FindSure(h: Hub, s: string, k: Sub)
    requires Sure(h, k)
    ensures Sure(Find(h, s).0, k)
  {
    StillQuiet(h, Find(h, s).0, k);
  }

  lemma OpenSure(h: Hub, t: TapId, o: Opening, k: Sub)
    requires Sure(h, k) && t < |h.taps| && TapOk(h.taps[t])
    ensures Sure(Open(h, t, o), k)
  {
    StillQuiet(h, Open(h, t, o), k);
  }

  /** A newcomer hears of an end that came before it, after its snapshot. */
  lemma JoinTells(w: Viewer, ch: Channel, snap: seq<byte>, ended: bool, c: Channel)
    ensures var fs := w.sent + [Attached(ch, true)] + (if |snap| > 0 then [Data(ch, History, snap)] else []) + (if ended then [Ended(ch)] else []);
      Told(fs, c) == if c == ch then ended else Told(w.sent, c)
  {
    var a := w.sent + [Attached(ch, true)];
    ToldSnoc(w.sent, Attached(ch, true), c);
    var b := if |snap| > 0 then a + [Data(ch, History, snap)] else a;
    ToldSnoc(a, Data(ch, History, snap), c);
    ToldSnoc(b, Ended(ch), c);
    Units(a);
    Units(b);
  }

  lemma JoinLists(h: Hub, u: ViewerId, t: TapId, c: Channel, k: Sub)
    requires u in h.viewers && t < |h.taps| && (u == k.v ==> c != k.ch)
    ensures forall i: TapId :: Lists(Join(h, u, t, c), i, k.v, k.ch) ==> Lists(h, i, k.v, k.ch)
  {
  }

  lemma JoinSure(h: Hub, u: ViewerId, t: TapId, c: Channel, k: Sub)
    requires Sure(h, k) && u in h.viewers && t < |h.taps|
    requires u == k.v ==> c != k.ch && k.t != t
    ensures Sure(Join(h, u, t, c), k)
  {
    var h' := Join(h, u, t, c);
    assert forall i :: 0 <= i < |h.taps| ==> h'.taps[i].ended == h.taps[i].ended;
    if u == k.v {
      JoinTells(h.viewers[u], c, Snapshot(h.taps[t].history, h.cap), h.taps[t].ended, k.ch);
      assert Lists(h', k.t, k.v, k.ch) && h'.viewers[k.v].channels[k.ch] == k.t;
    } else {
      assert h'.viewers[k.v] == h.viewers[k.v] && Lists(h', k.t, k.v, k.ch);
    }
    JoinLists(h, u, t, c, k);
    StillQuiet(h, h', k);
  }

  lemma FanSure(h: Hub, t: TapId, kind: Kind, body: seq<byte>, k: Sub)
    requires Sure(h, k)
    ensures Sure(FanOut(h, t, kind, body), k)
  {
    if t < |h.taps| && !h.taps[t].gone {
      FanTells(h, t, kind, body, k.v, k.ch);
      SureStays(h, FanOut(h, t, kind, body), k);
    }
  }

  lemma FanTells(h: Hub, t: TapId, kind: Kind, body: seq<byte>, v: ViewerId, ch: Channel)
    requires v in h.viewers && t < |h.taps| && !h.taps[t].gone
    ensures var h' := FanOut(h, t, kind, body);
      && v in h'.viewers && h'.viewers[v].channels == h.viewers[v].channels && h'.viewers[v].closed == h.viewers[v].closed
      && Told(h'.viewers[v].sent, ch) == Told(h.viewers[v].sent, ch)
  {
    if v in h.taps[t].viewers { ToldSnoc(h.viewers[v].sent, Data(h.taps[t].viewers[v], kind, body), ch); }
  }

  /** Ending a tap tells exactly the channels it lists. */
  lemma EndTells(h: Hub, t: TapId, v: ViewerId, ch: Channel)
    requires v in h.viewers && !h.viewers[v].closed && t < |h.taps| && !h.taps[t].ended
    ensures v in End(h, t).viewers
    ensures Told(End(h, t).viewers[v].sent, ch) <==> Told(h.viewers[v].sent, ch) || Lists(h, t, v, ch)
  {
    if v in h.taps[t].viewers { ToldSnoc(h.viewers[v].sent, Ended(h.taps[t].viewers[v]), ch); }
  }

  lemma EndSure(h: Hub, t: TapId, k: Sub)
    requires Sure(h, k)
    ensures Sure(End(h, t), k)
  {
    if t < |h.taps| && !h.taps[t].ended {
      EndTells(h, t, k.v, k.ch);
      if Lists(h, t, k.v, k.ch) && t != k.t { assert h.taps[k.t].ended; }
      StillQuiet(h, End(h, t), k);
    }
  }

  lemma GoneSure(h: Hub, t: TapId, k: Sub)
    requires Sure(h, k)
    ensures Sure(Gone(h, t), k)
  {
    if t < |h.taps| {
      StillQuiet(h, MarkGone(h, t), k);
      EndSure(MarkGone(h, t), t, k);
    }
  }

  lemma ShutSure(h: Hub, u: ViewerId, c: Channel, k: Sub)
    requires Sure(h, k) && u in h.viewers && (u, c) != (k.v, k.ch)
    ensures Sure(Shut(h, u, c), k)
  {
    StillQuiet(h, Shut(h, u, c), k);
  }

  lemma LeaveSure(h: Hub, u: ViewerId, w': Viewer, ts: set<TapId>, k: Sub)
    requires Sure(h, k) && u in h.viewers && GivesUp(h.viewers[u], w', ts)
    requires u == k.v ==> k.ch in w'.channels
    ensures Sure(Leave(h.(viewers := h.viewers[u := w']), u, ts), k)
  {
    var h' := Leave(h.(viewers := h.viewers[u := w']), u, ts);
    assert Lists(h', k.t, k.v, k.ch);
    StillQuiet(h, h', k);
  }

  // ---------------------------------------------------------------- one event

  lemma AttachSure(h: Hub, u: ViewerId, s: string, c: Channel, o: Opening, k: Sub)
    requires Valid(h) && Sure(h, k)
    ensures Sure(Attach(h, u, s, c, o), k)
  {
    if u in h.viewers && !h.viewers[u].closed {
      if Refuses(h.viewers[u], h.taps, s, c) {
        SendSure(h, u, Attached(c, false), k);
      } else {
        var (h1, t) := Find(h, s);
        FindKeepsValid(h, s);
        FindSure(h, s, k);
        assert TapOk(h1.taps[t]);
        OpenSure(h1, t, o, k);
        OpenShape(h1, t, o);
        NotAboard(h, u, s, c, t);
        SendSure(Open(h1, t, o), u, Attached(c, false), k);
        JoinSure(Open(h1, t, o), u, t, c, k);
      }
    }
  }

  lemma DetachSure(h: Hub, u: ViewerId, c: Channel, k: Sub)
    requires Valid(h) && Sure(h, k) && (u, c) != (k.v, k.ch)
    ensures Sure(Detach(h, u, c), k)
  {
    if u in h.viewers && !h.viewers[u].closed {
      var w := h.viewers[u];
      if c in w.channels {
        var w', ts := w.(channels := w.channels - {c}), {w.channels[c]};
        OneChannelPerTap(h, u, c);
        LeaveSure(h, u, w', ts, k);
        SendSure(Leave(h.(viewers := h.viewers[u := w']), u, ts), u, Detached(c, true), k);
      } else {
        SendSure(h, u, Detached(c, false), k);
      }
    }
  }

  lemma CloseSure(h: Hub, u: ViewerId, c: Channel, owner: bool, ok: bool, k: Sub)
    requires Sure(h, k) && (u, c) != (k.v, k.ch)
    ensures Sure(Close(h, u, c, owner, ok), k)
  {
    if u in h.viewers && !h.viewers[u].closed {
      if c in h.viewers[u].channels && owner {
        var t, g := h.viewers[u].channels[c], Shut(h, u, c);
        ShutSure(h, u, c, k);
        EndSure(g, t, k);
        SendSure(g, u, Failed, k);
        SendSure(End(g, t), u, Closed(c, true), k);
      } else {
        SendSure(h, u, Closed(c, false), k);
      }
    }
  }

  lemma DisposeSure(h: Hub, u: ViewerId, k: Sub)
    requires Sure(h, k) && u != k.v
    ensures Sure(Dispose(h, u), k)
  {
    if u in h.viewers && !h.viewers[u].closed {
      AllGivenUp(h.viewers[u]);
      LeaveSure(h, u, h.viewers[u].(closed := true, channels := map[]), h.viewers[u].channels.Values, k);
    }
  }

  lemma StepSure(h: Hub, e: Event, k: Sub)
    requires Valid(h) && Sure(h, k) && !TakesOff(h, e, k.v, k.ch)
    ensures Sure(Step(h, e), k)
  {
    OwnRequests(h, e, k.v, k.ch);
    match e
    case EConnect(u) => if u !in h.viewers { StillQuiet(h, Step(h, e), k); }
    case EAttach(u, s, c, o) => AttachSure(h, u, s, c, o, k);
    case EFanOut(t, kind, body) => FanSure(h, t, kind, body, k);
    case EEnd(t) => EndSure(h, t, k);
    case EGone(t) => GoneSure(h, t, k);
    case EDetach(u, c) => DetachSure(h, u, c, k);
    case EClose(u, c, owner, ok) =>
      if (u, c) == (k.v, k.ch) { SendSure(h, u, Closed(c, false), k); } else { CloseSure(h, u, c, owner, ok, k); }
    case EDispose(u) => DisposeSure(h, u, k);
  }

  lemma {:induction false} RunSure(h: Hub, es: seq<Event>, k: Sub)
    requires Valid(h) && Sure(h, k) && StaysOn(h, es, k.v, k.ch)
    ensures Sure(Run(h, es), k)
    decreases |es|
  {
    if es != [] {
      var front := es[..|es| - 1];
      StaysOnPrefix(h, es, k.v, k.ch);
      RunSure(h, front, k);
      RunIsValid(h, front);
      StepSure(Run(h, front), es[|es| - 1], k);
    }
  }
}
