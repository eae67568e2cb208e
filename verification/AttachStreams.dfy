/**
 * Many viewers on one broker attachment per session (src/host/attachHub.ts SessionTap,
 * Viewer.attach, DETACH, CLOSE, dispose): replay to newcomers, fan-out to everyone else.
 * A viewer's join and the snapshot sent to it are one step.
 */
module AttachStreams {
  import opened Prelude
  import opened Replay

  type ViewerId = nat
  type Channel = nat
  type TapId = nat

  datatype Kind = History | Output
  datatype Frame =
    | Attached(ch: Channel, ok: bool)
    | Data(ch: Channel, kind: Kind, body: seq<byte>)
    | Ended(ch: Channel)
    | Detached(ch: Channel, ok: bool)
    | Closed(ch: Channel, ok: bool)
    | Failed                             // the reply to a request whose handling threw

  datatype Viewer = Viewer(channels: map<Channel, TapId>, closed: bool, sent: seq<Frame>)
  datatype Tap = Tap(session: string, history: seq<byte>, viewers: map<ViewerId, Channel>, upstream: bool, ended: bool, gone: bool)

  datatype Hub = Hub(
    cap: nat,
    taps: seq<Tap>,                       // every tap ever made
    current: map<string, TapId>,          // the taps new viewers find
    viewers: map<ViewerId, Viewer>,
    shut: set<(ViewerId, Channel)>)       // history: channels on which a CLOSE was accepted

  function Fresh(cap: nat): Hub { Hub(cap, [], map[], map[], {}) }

  // ---------------------------------------------------------------- the operations

  function Send(h: Hub, v: ViewerId, fs: seq<Frame>): Hub {
    if v !in h.viewers || h.viewers[v].closed then h
    else h.(viewers := h.viewers[v := h.viewers[v].(sent := h.viewers[v].sent + fs)])
  }

  function Retire(h: Hub, t: TapId): Hub
    requires t < |h.taps|
  {
    var s := h.taps[t].session;
    if s in h.current && h.current[s] == t then h.(current := h.current - {s}) else h
  }

  /** hub.tap(id): the current tap of a session, made on demand. */
  function Find(h: Hub, s: string): (Hub, TapId) {
    if s in h.current then (h, h.current[s])
    else (h.(taps := h.taps + [Tap(s, [], map[], false, false, false)], current := h.current[s := |h.taps|]), |h.taps|)
  }

  /** What the upstream does while it is being opened. */
  datatype Opening = Opening(ok: bool, early: seq<byte>, dies: bool, gone: bool)

  function Opened(tap: Tap, o: Opening): Tap {
    tap.(history := tap.history + o.early, upstream := o.ok, ended := o.dies || o.gone, gone := o.gone)
  }

  /** tap.open(): output and even the end may arrive before the attachment is answered. */
  function Open(h: Hub, t: TapId, o: Opening): Hub
    requires t < |h.taps|
  {
    var tap := h.taps[t];
    if tap.upstream || tap.ended then h
    else
      var h1 := h.(taps := h.taps[t := Opened(tap, o)]);
      if o.dies || o.gone || (!o.ok && |tap.viewers| == 0) then Retire(h1, t) else h1
  }

  predicate Refuses(w: Viewer, taps: seq<Tap>, s: string, ch: Channel) {
    ch in w.channels || exists c :: c in w.channels && w.channels[c] < |taps| && taps[w.channels[c]].session == s
  }

  /** The part of attach() after a successful join. */
  function Join(h: Hub, v: ViewerId, t: TapId, ch: Channel): Hub
    requires v in h.viewers && t < |h.taps|
  {
    var tap, w := h.taps[t], h.viewers[v];
    var snap := Snapshot(tap.history, h.cap);
    h.(taps := h.taps[t := tap.(viewers := tap.viewers[v := ch])],
       viewers := h.viewers[v := w.(channels := w.channels[ch := t],
                                    sent := w.sent + [Attached(ch, true)]
                                            + (if |snap| > 0 then [Data(ch, History, snap)] else [])
                                            + (if tap.ended then [Ended(ch)] else []))])
  }

  function Attach(h: Hub, v: ViewerId, s: string, ch: Channel, o: Opening): Hub {
    if v !in h.viewers || h.viewers[v].closed then h
    else if Refuses(h.viewers[v], h.taps, s, ch) then Send(h, v, [Attached(ch, false)])
    else
      var (h1, t) := Find(h, s);
      if t >= |h1.taps| then h else JoinTap(h1, v, t, ch, o)
  }

  function JoinTap(h: Hub, v: ViewerId, t: TapId, ch: Channel, o: Opening): Hub
    requires v in h.viewers && t < |h.taps|
  {
    var was := h.taps[t];
    if !was.upstream && !was.ended && !o.ok then Send(Open(h, t, o), v, [Attached(ch, false)])
    else Join(Open(h, t, o), v, t, ch)
  }

  function Fan(w: Viewer, ch: Channel, kind: Kind, body: seq<byte>): Viewer {
    if w.closed then w else w.(sent := w.sent + [Data(ch, kind, body)])
  }

  /** Upstream output reaches every viewer of the tap, even of one that has ended, until the broker connection is gone. */
  function FanOut(h: Hub, t: TapId, kind: Kind, body: seq<byte>): Hub {
    if t >= |h.taps| || h.taps[t].gone then h
    else
      var tap := h.taps[t];
      h.(taps := h.taps[t := tap.(history := tap.history + body)],
         viewers := map v | v in h.viewers ::
           if v in tap.viewers then Fan(h.viewers[v], tap.viewers[v], kind, body) else h.viewers[v])
  }

  function End(h: Hub, t: TapId): Hub {
    if t >= |h.taps| || h.taps[t].ended then h
    else
      var tap := h.taps[t];
      var h1 := Retire(h.(taps := h.taps[t := tap.(upstream := false, ended := true)]), t);
      h1.(viewers := map v | v in h.viewers ::
            if v in tap.viewers && !h.viewers[v].closed
            then h.viewers[v].(sent := h.viewers[v].sent + [Ended(tap.viewers[v])]) else h.viewers[v])
  }

  function MarkGone(h: Hub, t: TapId): Hub
    requires t < |h.taps|
  {
    h.(taps := h.taps[t := h.taps[t].(gone := true)])
  }

  /** The broker connection dropped: the tap ends, if it has not, and nothing comes from it any more. */
  function Gone(h: Hub, t: TapId): Hub { if t >= |h.taps| then h else End(MarkGone(h, t), t) }

  function LeftTap(tap: Tap, v: ViewerId): Tap {
    if v !in tap.viewers then tap
    else tap.(viewers := tap.viewers - {v}, upstream := tap.upstream && |tap.viewers - {v}| > 0)
  }

  /** Viewer `v` is the last on tap `t`. */
  predicate Empties(h: Hub, v: ViewerId, t: TapId) { t < |h.taps| && v in h.taps[t].viewers && |h.taps[t].viewers - {v}| == 0 }

  /** tap.leave(v) for every tap in `ts`; a tap left by its last viewer retires. */
  function Leave(h: Hub, v: ViewerId, ts: set<TapId>): Hub {
    h.(taps := seq(|h.taps|, i requires 0 <= i < |h.taps| => if i in ts then LeftTap(h.taps[i], v) else h.taps[i]),
       current := map s | s in h.current && !(h.current[s] in ts && Empties(h, v, h.current[s])) :: h.current[s])
  }

  function Detach(h: Hub, v: ViewerId, ch: Channel): Hub {
    if v !in h.viewers || h.viewers[v].closed then h
    else if ch !in h.viewers[v].channels then Send(h, v, [Detached(ch, false)])
    else
      var w := h.viewers[v];
      Send(Leave(h.(viewers := h.viewers[v := w.(channels := w.channels - {ch})]), v, {w.channels[ch]}), v, [Detached(ch, true)])
  }

  /** The channel goes; the tap goes on listing the viewer under it. */
  function Shut(h: Hub, v: ViewerId, ch: Channel): Hub
    requires v in h.viewers
  {
    h.(viewers := h.viewers[v := h.viewers[v].(channels := h.viewers[v].channels - {ch})], shut := h.shut + {(v, ch)})
  }

  /** CLOSE by the session's owner; the broker's answer to it may fail, and then nothing has ended. */
  function Close(h: Hub, v: ViewerId, ch: Channel, owner: bool, ok: bool): Hub {
    if v !in h.viewers || h.viewers[v].closed then h
    else if ch !in h.viewers[v].channels || !owner then Send(h, v, [Closed(ch, false)])
    else
      var t := h.viewers[v].channels[ch];
      if t < |h.taps| && h.taps[t].upstream && !ok then Send(Shut(h, v, ch), v, [Failed])
      else Send(End(Shut(h, v, ch), t), v, [Closed(ch, true)])
  }

  function Dispose(h: Hub, v: ViewerId): Hub {
    if v !in h.viewers || h.viewers[v].closed then h
    else
      var w := h.viewers[v];
      Leave(h.(viewers := h.viewers[v := w.(closed := true, channels := map[])]), v, w.channels.Values)
  }

  datatype Event =
    | EConnect(v: ViewerId)
    | EAttach(v: ViewerId, s: string, ch: Channel, o: Opening)
    | EFanOut(t: TapId, kind: Kind, body: seq<byte>)
    | EEnd(t: TapId)
    | EGone(t: TapId)
    | EDetach(v: ViewerId, ch: Channel)
    | EClose(v: ViewerId, ch: Channel, owner: bool, ok: bool)
    | EDispose(v: ViewerId)

  function Step(h: Hub, e: Event): Hub {
    match e
    case EConnect(v) => if v in h.viewers then h else h.(viewers := h.viewers[v := Viewer(map[], false, [])])
    case EAttach(v, s, ch, o) => Attach(h, v, s, ch, o)
    case EFanOut(t, kind, body) => FanOut(h, t, kind, body)
    case EEnd(t) => End(h, t)
    case EGone(t) => Gone(h, t)
    case EDetach(v, ch) => Detach(h, v, ch)
    case EClose(v, ch, owner, ok) => Close(h, v, ch, owner, ok)
    case EDispose(v) => Dispose(h, v)
  }

  function Run(h: Hub, es: seq<Event>): Hub
    decreases |es|
  {
    if es == [] then h else Step(Run(h, es[..|es| - 1]), es[|es| - 1])
  }

  // ---------------------------------------------------------------- what a viewer has received

  /** The bytes delivered on `ch` since it was last attached. */
  function Stream(fs: seq<Frame>, ch: Channel): seq<byte>
    decreases |fs|
  {
    if fs == [] then []
    else
      var front, f := fs[..|fs| - 1], fs[|fs| - 1];
      if f == Attached(ch, true) then []
      else if f.Data? && f.ch == ch then Stream(front, ch) + f.body
      else Stream(front, ch)
  }

  lemma StreamSnoc(fs: seq<Frame>, f: Frame, ch: Channel)
    ensures Stream(fs + [f], ch) ==
      if f == Attached(ch, true) then [] else if f.Data? && f.ch == ch then Stream(fs, ch) + f.body else Stream(fs, ch)
  {
    assert (fs + [f])[..|fs|] == fs;
  }

  /** `ch` of viewer `v` is attached. */
  predicate On(h: Hub, v: ViewerId, ch: Channel) { v in h.viewers && ch in h.viewers[v].channels }

  predicate Lists(h: Hub, t: TapId, v: ViewerId, ch: Channel) {
    t < |h.taps| && v in h.taps[t].viewers && h.taps[t].viewers[v] == ch
  }

  /** ... to a tap that lists it. */
  predicate Linked(h: Hub, v: ViewerId, ch: Channel)
    requires On(h, v, ch)
  {
    !h.viewers[v].closed && Lists(h, h.viewers[v].channels[ch], v, ch)
  }

  /** An attachment: viewer, channel, tap, and the tap's output at the moment of ATTACHED. */
  datatype Sub = Sub(v: ViewerId, ch: Channel, t: TapId, of: seq<byte>)

  predicate Attachment(h: Hub, k: Sub) { On(h, k.v, k.ch) && Linked(h, k.v, k.ch) && h.viewers[k.v].channels[k.ch] == k.t }

  /** The viewer has received the snapshot and then all that followed it, and nothing else. */
  predicate Complete(h: Hub, k: Sub) {
    && Attachment(h, k) && k.of <= h.taps[k.t].history
    && Stream(h.viewers[k.v].sent, k.ch) == Snapshot(k.of, h.cap) + h.taps[k.t].history[|k.of|..]
  }

  /** Output can still come from `t` to `v` on `ch`. */
  predicate Feeds(h: Hub, t: TapId, v: ViewerId, ch: Channel) { Lists(h, t, v, ch) && !h.taps[t].gone }

  /** No tap but `t` feeds `v` on `ch`. */
  ghost predicate Clear(h: Hub, v: ViewerId, ch: Channel, t: TapId) { forall i :: Feeds(h, i, v, ch) ==> i == t }

  ghost predicate Fine(h: Hub, k: Sub) { Complete(h, k) && Clear(h, k.v, k.ch, k.t) }

  // ---------------------------------------------------------------- one stream, one operation

  /** Replies, ends, and frames that begin another channel. */
  predicate Neutral(f: Frame, ch: Channel) { !(f.Data? && f.ch == ch) && f != Attached(ch, true) }

  lemma SendFine(h: Hub, u: ViewerId, f: Frame, k: Sub)
    requires Fine(h, k) && Neutral(f, k.ch)
    ensures Fine(Send(h, u, [f]), k)
  {
    StreamSnoc(h.viewers[k.v].sent, f, k.ch);
    StillClear(h, Send(h, u, [f]), k);
  }

  /** Nothing new to feed a channel keeps it clear. */
  lemma StillClear(h: Hub, h': Hub, k: Sub)
    requires Clear(h, k.v, k.ch, k.t) && forall t :: Feeds(h', t, k.v, k.ch) && t != k.t ==> Feeds(h, t, k.v, k.ch)
    ensures Clear(h', k.v, k.ch, k.t)
  {
  }

  lemma FindFine(h: Hub, s: string, k: Sub)
    requires Fine(h, k)
    ensures Fine(Find(h, s).0, k)
  {
    StillClear(h, Find(h, s).0, k);
  }

  lemma OpenFine(h: Hub, t: TapId, o: Opening, k: Sub)
    requires Fine(h, k) && t < |h.taps| && TapOk(h.taps[t])
    ensures Fine(Open(h, t, o), k)
  {
    StillClear(h, Open(h, t, o), k);
  }

  lemma JoinStream(w: Viewer, ch: Channel, snap: seq<byte>, ended: bool, c: Channel)
    ensures var fs := w.sent + [Attached(ch, true)] + (if |snap| > 0 then [Data(ch, History, snap)] else []) + (if ended then [Ended(ch)] else []);
      Stream(fs, c) == if c == ch then snap else Stream(w.sent, c)
  {
    var a := w.sent + [Attached(ch, true)];
    StreamSnoc(w.sent, Attached(ch, true), c);
    var b := if |snap| > 0 then a + [Data(ch, History, snap)] else a;
    StreamSnoc(a, Data(ch, History, snap), c);
    StreamSnoc(b, Ended(ch), c);
    Units(a);
    Units(b);
    Units(snap);
  }

  lemma JoinFeeds(h: Hub, u: ViewerId, t: TapId, c: Channel, k: Sub)
    requires u in h.viewers && t < |h.taps| && (u == k.v ==> c != k.ch)
    ensures forall i :: Feeds(Join(h, u, t, c), i, k.v, k.ch) ==> Feeds(h, i, k.v, k.ch)
  {
  }

  lemma JoinFine(h: Hub, u: ViewerId, t: TapId, c: Channel, k: Sub)
    requires Fine(h, k) && u in h.viewers && t < |h.taps|
    requires u == k.v ==> c != k.ch && k.t != t
    ensures Fine(Join(h, u, t, c), k)
  {
    var h' := Join(h, u, t, c);
    assert h'.taps[k.t].history == h.taps[k.t].history && Lists(h', k.t, k.v, k.ch);
    if u == k.v {
      JoinStream(h.viewers[k.v], c, Snapshot(h.taps[t].history, h.cap), h.taps[t].ended, k.ch);
    } else {
      assert h'.viewers[k.v] == h.viewers[k.v];
    }
    JoinFeeds(h, u, t, c, k);
    StillClear(h, h', k);
  }

  /** Whatever the taps list: at its ATTACHED a stream is complete. */
  lemma JoinStarts(h: Hub, v: ViewerId, t: TapId, ch: Channel)
    requires v in h.viewers && !h.viewers[v].closed && t < |h.taps|
    ensures Complete(Join(h, v, t, ch), Sub(v, ch, t, h.taps[t].history))
  {
    var tap := h.taps[t];
    var snap := Snapshot(tap.history, h.cap);
    JoinStream(h.viewers[v], ch, snap, tap.ended, ch);
    assert tap.history[|tap.history|..] == [];
    Units(snap);
  }

  lemma GrownHistory(hist: seq<byte>, body: seq<byte>, of: seq<byte>, snap: seq<byte>)
    requires of <= hist
    ensures of <= hist + body && snap + (hist + body)[|of|..] == snap + hist[|of|..] + body
  {
    assert (hist + body)[|of|..] == hist[|of|..] + body;
  }

  lemma FanFine(h: Hub, t: TapId, kind: Kind, body: seq<byte>, k: Sub)
    requires Fine(h, k)
    ensures Fine(FanOut(h, t, kind, body), k)
  {
    if t < |h.taps| && !h.taps[t].gone {
      if k.v in h.taps[t].viewers {
        var c := h.taps[t].viewers[k.v];
        assert c == k.ch <==> t == k.t by { if c == k.ch { assert Feeds(h, t, k.v, k.ch); } }
        StreamSnoc(h.viewers[k.v].sent, Data(c, kind, body), k.ch);
      }
      GrownHistory(h.taps[k.t].history, body, k.of, Snapshot(k.of, h.cap));
      StillClear(h, FanOut(h, t, kind, body), k);
    }
  }

  lemma EndFine(h: Hub, t: TapId, k: Sub)
    requires Fine(h, k)
    ensures Fine(End(h, t), k)
  {
    if t < |h.taps| && !h.taps[t].ended {
      if k.v in h.taps[t].viewers { StreamSnoc(h.viewers[k.v].sent, Ended(h.taps[t].viewers[k.v]), k.ch); }
      StillClear(h, End(h, t), k);
    }
  }

  lemma GoneFine(h: Hub, t: TapId, k: Sub)
    requires Fine(h, k)
    ensures Fine(Gone(h, t), k)
  {
    if t < |h.taps| {
      StillClear(h, MarkGone(h, t), k);
      EndFine(MarkGone(h, t), t, k);
    }
  }

  lemma ShutFine(h: Hub, u: ViewerId, c: Channel, k: Sub)
    requires Fine(h, k) && u in h.viewers && (u, c) != (k.v, k.ch)
    ensures Fine(Shut(h, u, c), k)
  {
    StillClear(h, Shut(h, u, c), k);
  }

  /** Viewer `u` gives up every channel on the taps in `ts`, and leaves those taps. */
  predicate GivesUp(w: Viewer, w': Viewer, ts: set<TapId>) {
    && w'.sent == w.sent
    && w'.channels == (map c | c in w.channels && w.channels[c] !in ts :: w.channels[c])
    && (w'.closed ==> w'.channels == map[]) && (w.closed ==> w'.closed) && (w'.closed == w.closed || w.channels.Values <= ts)
  }

  lemma LeaveFine(h: Hub, u: ViewerId, w': Viewer, ts: set<TapId>, k: Sub)
    requires Fine(h, k) && u in h.viewers && GivesUp(h.viewers[u], w', ts)
    requires u == k.v ==> k.ch in w'.channels
    ensures Fine(Leave(h.(viewers := h.viewers[u := w']), u, ts), k)
  {
    var h' := Leave(h.(viewers := h.viewers[u := w']), u, ts);
    assert Lists(h', k.t, k.v, k.ch);
    StillClear(h, h', k);
  }

  // ---------------------------------------------------------------- all of the hub

  /** Why tap `t` lists `v` under `ch`: it is attached, or gone, or a CLOSE left it behind. */
  predicate Accounted(h: Hub, t: TapId, v: ViewerId, ch: Channel) {
    && v in h.viewers
    && (h.viewers[v].closed || (v, ch) in h.shut || (On(h, v, ch) && h.viewers[v].channels[ch] == t))
  }

  predicate CurrentOk(h: Hub, s: string)
    requires s in h.current
  {
    h.current[s] < |h.taps| && h.taps[h.current[s]].session == s && !h.taps[h.current[s]].ended
  }

  /** A tap that has viewers and has not ended has an upstream. */
  predicate TapOk(tap: Tap) { !tap.ended && !tap.upstream ==> tap.viewers == map[] }

  ghost predicate AllLinked(h: Hub) { forall v, ch :: On(h, v, ch) ==> Linked(h, v, ch) }

  ghost predicate AllAccounted(h: Hub) { forall t, v, ch :: Lists(h, t, v, ch) ==> Accounted(h, t, v, ch) }

  ghost predicate AllCurrent(h: Hub) { forall s :: s in h.current ==> CurrentOk(h, s) }

  ghost predicate AllTaps(h: Hub) { forall t :: 0 <= t < |h.taps| ==> TapOk(h.taps[t]) }

  ghost predicate Valid(h: Hub) { AllLinked(h) && AllAccounted(h) && AllCurrent(h) && AllTaps(h) }

  /** Viewers that differ only in what they were sent, and taps only in history, upstream and end. */
  ghost predicate SameLinks(h: Hub, h': Hub) {
    && h'.cap == h.cap && h'.shut == h.shut && h'.viewers.Keys == h.viewers.Keys && |h'.taps| == |h.taps|
    && (forall v :: v in h.viewers ==> h'.viewers[v].channels == h.viewers[v].channels && h'.viewers[v].closed == h.viewers[v].closed)
    && (forall t :: 0 <= t < |h.taps| ==> h'.taps[t].viewers == h.taps[t].viewers && h.taps[t].history <= h'.taps[t].history)
  }

  lemma SameLinksKeep(h: Hub, h': Hub)
    requires AllLinked(h) && AllAccounted(h) && SameLinks(h, h')
    ensures AllLinked(h') && AllAccounted(h')
  {
    forall v, ch | On(h', v, ch) ensures Linked(h', v, ch) { assert On(h, v, ch) && Linked(h, v, ch); }
    forall t, v, ch | Lists(h', t, v, ch) ensures Accounted(h', t, v, ch) {
      assert Lists(h, t, v, ch);
      assert Accounted(h, t, v, ch);
    }
  }

  /** Taps that differ only in history, while `current` loses at most entries. */
  lemma TapsKeep(h: Hub, h': Hub)
    requires AllCurrent(h) && AllTaps(h) && |h'.taps| >= |h.taps|
    requires forall t :: 0 <= t < |h.taps| ==> h'.taps[t] == h.taps[t].(history := h'.taps[t].history)
    requires forall t :: |h.taps| <= t < |h'.taps| ==> TapOk(h'.taps[t])
    requires forall s :: s in h'.current && s in h.current ==> h'.current[s] == h.current[s]
    requires forall s :: s in h'.current && s !in h.current ==> CurrentOk(h', s)
    ensures AllCurrent(h') && AllTaps(h')
  {
    forall s | s in h'.current ensures CurrentOk(h', s) { if s in h.current { assert CurrentOk(h, s); } }
    forall t | 0 <= t < |h'.taps| ensures TapOk(h'.taps[t]) { if t < |h.taps| { assert TapOk(h.taps[t]); } }
  }

  lemma SendKeepsValid(h: Hub, v: ViewerId, f: Frame)
    requires Valid(h)
    ensures Valid(Send(h, v, [f]))
  {
    SameLinksKeep(h, Send(h, v, [f]));
    TapsKeep(h, Send(h, v, [f]));
  }

  lemma FindKeepsValid(h: Hub, s: string)
    requires Valid(h)
    ensures var (h', t) := Find(h, s);
      Valid(h') && t < |h'.taps| && h'.taps[t].session == s && !h'.taps[t].ended && h'.viewers == h.viewers && h.taps <= h'.taps
  {
    var (h', t) := Find(h, s);
    if s in h.current { assert CurrentOk(h, s); }
    TapsKeep(h, h');
    forall v, ch | On(h', v, ch) ensures Linked(h', v, ch) { assert Linked(h, v, ch); }
    forall i, v, ch | Lists(h', i, v, ch) ensures Accounted(h', i, v, ch) { assert Lists(h, i, v, ch); }
  }

  lemma FanOutKeepsValid(h: Hub, t: TapId, kind: Kind, body: seq<byte>)
    requires Valid(h)
    ensures Valid(FanOut(h, t, kind, body))
  {
    SameLinksKeep(h, FanOut(h, t, kind, body));
    TapsKeep(h, FanOut(h, t, kind, body));
  }

  lemma RetireKeepsCurrent(h: Hub, t: TapId, tap: Tap)
    requires AllCurrent(h) && AllTaps(h) && t < |h.taps| && tap.session == h.taps[t].session && TapOk(tap)
    ensures AllTaps(h.(taps := h.taps[t := tap]))
    ensures AllCurrent(Retire(h.(taps := h.taps[t := tap]), t))
    ensures !tap.ended ==> AllCurrent(h.(taps := h.taps[t := tap]))
  {
    var g := h.(taps := h.taps[t := tap]);
    forall s | s in g.current && (g.current[s] != t || !tap.ended) ensures CurrentOk(g, s) { assert CurrentOk(h, s); }
    forall s | s in g.current ensures g.current[s] == t ==> s == tap.session { assert CurrentOk(h, s); }
    forall i | 0 <= i < |g.taps| ensures TapOk(g.taps[i]) { assert TapOk(h.taps[i]); }
    var r := Retire(g, t);
    forall s | s in r.current ensures CurrentOk(r, s) { assert CurrentOk(g, s); }
  }

  lemma OpenShape(h: Hub, t: TapId, o: Opening)
    requires t < |h.taps|
    ensures var h' := Open(h, t, o);
      && h'.viewers == h.viewers && |h'.taps| == |h.taps| && h'.taps[t].session == h.taps[t].session
      && (h'.taps[t].upstream || h'.taps[t].ended || !o.ok)
  {
  }

  lemma OpenLinks(h: Hub, t: TapId, o: Opening)
    requires t < |h.taps|
    ensures SameLinks(h, Open(h, t, o))
  {
    if !h.taps[t].upstream && !h.taps[t].ended {
      var g := h.(taps := h.taps[t := Opened(h.taps[t], o)]);
      assert Open(h, t, o).taps == g.taps && Open(h, t, o).viewers == h.viewers && Open(h, t, o).shut == h.shut;
      assert Opened(h.taps[t], o).viewers == h.taps[t].viewers && h.taps[t].history <= Opened(h.taps[t], o).history;
    }
  }

  lemma OpenKeepsValid(h: Hub, t: TapId, o: Opening)
    requires Valid(h) && t < |h.taps|
    ensures Valid(Open(h, t, o))
  {
    var tap, h' := h.taps[t], Open(h, t, o);
    OpenLinks(h, t, o);
    assert TapOk(tap);
    if !tap.upstream && !tap.ended {
      SameLinksKeep(h, h');
      RetireKeepsCurrent(h, t, Opened(tap, o));
    }
  }

  lemma EndKeepsValid(h: Hub, t: TapId)
    requires Valid(h)
    ensures Valid(End(h, t))
  {
    if t < |h.taps| && !h.taps[t].ended {
      SameLinksKeep(h, End(h, t));
      RetireKeepsCurrent(h, t, h.taps[t].(upstream := false, ended := true));
      EndTaps(h, t);
    }
  }

  lemma GoneKeepsValid(h: Hub, t: TapId)
    requires Valid(h)
    ensures Valid(Gone(h, t))
  {
    if t < |h.taps| {
      var g := MarkGone(h, t);
      SameLinksKeep(h, g);
      forall s | s in g.current ensures CurrentOk(g, s) { assert CurrentOk(h, s); }
      forall i | 0 <= i < |g.taps| ensures TapOk(g.taps[i]) { assert TapOk(h.taps[i]); }
      EndKeepsValid(g, t);
    }
  }

  lemma EndTaps(h: Hub, t: TapId)
    requires t < |h.taps| && !h.taps[t].ended
    ensures var g := Retire(h.(taps := h.taps[t := h.taps[t].(upstream := false, ended := true)]), t);
      End(h, t).taps == g.taps && End(h, t).current == g.current
  {
  }

  lemma JoinKeepsLinks(h: Hub, v: ViewerId, t: TapId, ch: Channel)
    requires AllLinked(h) && v in h.viewers && !h.viewers[v].closed && t < |h.taps|
    requires forall c :: c in h.viewers[v].channels ==> c != ch && h.viewers[v].channels[c] != t
    ensures AllLinked(Join(h, v, t, ch))
  {
    var h' := Join(h, v, t, ch);
    forall u: ViewerId, c: Channel | On(h', u, c) ensures Linked(h', u, c) {
      if u != v || c != ch { assert On(h, u, c) && Linked(h, u, c); }
    }
  }

  lemma JoinKeepsAccounts(h: Hub, v: ViewerId, t: TapId, ch: Channel)
    requires AllAccounted(h) && v in h.viewers && t < |h.taps| && ch !in h.viewers[v].channels
    ensures AllAccounted(Join(h, v, t, ch))
  {
    var h' := Join(h, v, t, ch);
    forall i: TapId, u: ViewerId, c: Channel | Lists(h', i, u, c) ensures Accounted(h', i, u, c) {
      if i != t || u != v { assert Lists(h, i, u, c); assert Accounted(h, i, u, c); }
    }
  }

  lemma JoinKeepsValid(h: Hub, v: ViewerId, t: TapId, ch: Channel)
    requires Valid(h) && v in h.viewers && !h.viewers[v].closed && t < |h.taps|
    requires h.taps[t].upstream || h.taps[t].ended
    requires forall c :: c in h.viewers[v].channels ==> c != ch && h.viewers[v].channels[c] != t
    ensures Valid(Join(h, v, t, ch))
  {
    var h' := Join(h, v, t, ch);
    JoinKeepsLinks(h, v, t, ch);
    JoinKeepsAccounts(h, v, t, ch);
    forall s | s in h'.current ensures CurrentOk(h', s) { assert CurrentOk(h, s); }
    forall i | 0 <= i < |h'.taps| ensures TapOk(h'.taps[i]) { assert TapOk(h.taps[i]); }
  }

  lemma AttachKeepsValid(h: Hub, v: ViewerId, s: string, ch: Channel, o: Opening)
    requires Valid(h)
    ensures Valid(Attach(h, v, s, ch, o))
  {
    if v in h.viewers && !h.viewers[v].closed {
      SendKeepsValid(h, v, Attached(ch, false));
      if !Refuses(h.viewers[v], h.taps, s, ch) {
        var (h1, t) := Find(h, s);
        FindKeepsValid(h, s);
        OpenKeepsValid(h1, t, o);
        OpenShape(h1, t, o);
        var h2 := Open(h1, t, o);
        SendKeepsValid(h2, v, Attached(ch, false));
        if h1.taps[t].upstream || h1.taps[t].ended || o.ok {
          NotAboard(h, v, s, ch, t);
          JoinKeepsValid(h2, v, t, ch);
        }
      }
    }
  }

  /** Unless refused, the viewer has no channel on the session's tap. */
  lemma NotAboard(h: Hub, v: ViewerId, s: string, ch: Channel, t: TapId)
    requires Valid(h) && v in h.viewers && !Refuses(h.viewers[v], h.taps, s, ch) && t == Find(h, s).1
    ensures forall c :: c in h.viewers[v].channels ==> h.viewers[v].channels[c] != t
  {
    if s in h.current { assert CurrentOk(h, s); }
    forall c | c in h.viewers[v].channels ensures h.viewers[v].channels[c] != t { assert On(h, v, c) && Linked(h, v, c); }
  }

  lemma LeaveKeepsValid(h: Hub, v: ViewerId, w': Viewer, ts: set<TapId>)
    requires Valid(h) && v in h.viewers && GivesUp(h.viewers[v], w', ts)
    ensures Valid(Leave(h.(viewers := h.viewers[v := w']), v, ts))
  {
    var h' := Leave(h.(viewers := h.viewers[v := w']), v, ts);
    forall u: ViewerId, c: Channel | On(h', u, c) ensures Linked(h', u, c) { assert On(h, u, c) && Linked(h, u, c); }
    forall i, u, c | Lists(h', i, u, c) ensures Accounted(h', i, u, c) {
      assert Lists(h, i, u, c);
      assert Accounted(h, i, u, c);
    }
    LeaveKeepsTaps(h, h.(viewers := h.viewers[v := w']), v, ts);
  }

  lemma LeaveKeepsTaps(h: Hub, g: Hub, v: ViewerId, ts: set<TapId>)
    requires AllTaps(h) && AllCurrent(h) && g.taps == h.taps && g.current == h.current
    ensures AllTaps(Leave(g, v, ts)) && AllCurrent(Leave(g, v, ts))
  {
    var h' := Leave(g, v, ts);
    forall s | s in h'.current ensures CurrentOk(h', s) { assert CurrentOk(h, s); }
    forall i | 0 <= i < |h'.taps| ensures TapOk(h'.taps[i]) {
      assert TapOk(h.taps[i]);
      if |h.taps[i].viewers - {v}| == 0 { assert h.taps[i].viewers - {v} == map[]; }
    }
  }

  /** Channels of one viewer lead to different taps, so giving up one tap gives up one channel. */
  lemma OneChannelPerTap(h: Hub, v: ViewerId, ch: Channel)
    requires AllLinked(h) && On(h, v, ch)
    ensures var w := h.viewers[v]; GivesUp(w, w.(channels := w.channels - {ch}), {w.channels[ch]})
  {
    var w := h.viewers[v];
    assert Linked(h, v, ch);
    forall c | c in w.channels && w.channels[c] == w.channels[ch] ensures c == ch { assert On(h, v, c) && Linked(h, v, c); }
    assert w.channels - {ch} == (map c | c in w.channels && w.channels[c] !in {w.channels[ch]} :: w.channels[c]);
  }

  lemma DetachKeepsValid(h: Hub, v: ViewerId, ch: Channel)
    requires Valid(h)
    ensures Valid(Detach(h, v, ch))
  {
    if v in h.viewers && !h.viewers[v].closed {
      var w := h.viewers[v];
      if ch in w.channels {
        var w', ts := w.(channels := w.channels - {ch}), {w.channels[ch]};
        OneChannelPerTap(h, v, ch);
        LeaveKeepsValid(h, v, w', ts);
        SendKeepsValid(Leave(h.(viewers := h.viewers[v := w']), v, ts), v, Detached(ch, true));
      } else {
        SendKeepsValid(h, v, Detached(ch, false));
      }
    }
  }

  lemma AllGivenUp(w: Viewer)
    ensures GivesUp(w, w.(closed := true, channels := map[]), w.channels.Values)
  {
    assert map[] == (map c | c in w.channels && w.channels[c] !in w.channels.Values :: w.channels[c]);
  }

  lemma DisposeKeepsValid(h: Hub, v: ViewerId)
    requires Valid(h)
    ensures Valid(Dispose(h, v))
  {
    if v in h.viewers && !h.viewers[v].closed {
      AllGivenUp(h.viewers[v]);
      LeaveKeepsValid(h, v, h.viewers[v].(closed := true, channels := map[]), h.viewers[v].channels.Values);
    }
  }

  lemma ShutKeepsValid(h: Hub, v: ViewerId, ch: Channel)
    requires Valid(h) && v in h.viewers
    ensures Valid(Shut(h, v, ch))
  {
    var h' := Shut(h, v, ch);
    forall u: ViewerId, c: Channel | On(h', u, c) ensures Linked(h', u, c) { assert On(h, u, c) && Linked(h, u, c); }
    forall i, u, c | Lists(h', i, u, c) ensures Accounted(h', i, u, c) {
      assert Lists(h, i, u, c);
      assert Accounted(h, i, u, c);
    }
    TapsKeep(h, h');
  }

  lemma CloseKeepsValid(h: Hub, v: ViewerId, ch: Channel, owner: bool, ok: bool)
    requires Valid(h)
    ensures Valid(Close(h, v, ch, owner, ok))
  {
    if v in h.viewers && !h.viewers[v].closed {
      if ch in h.viewers[v].channels && owner {
        var t, g := h.viewers[v].channels[ch], Shut(h, v, ch);
        ShutKeepsValid(h, v, ch);
        EndKeepsValid(g, t);
        SendKeepsValid(g, v, Failed);
        SendKeepsValid(End(g, t), v, Closed(ch, true));
      } else {
        SendKeepsValid(h, v, Closed(ch, false));
      }
    }
  }

  lemma ConnectKeepsValid(h: Hub, v: ViewerId)
    requires Valid(h)
    ensures Valid(Step(h, EConnect(v)))
  {
    var h' := Step(h, EConnect(v));
    forall u: ViewerId, c: Channel | On(h', u, c) ensures Linked(h', u, c) { assert On(h, u, c) && Linked(h, u, c); }
    forall i, u, c | Lists(h', i, u, c) ensures Accounted(h', i, u, c) {
      assert Lists(h, i, u, c);
      assert Accounted(h, i, u, c);
    }
    TapsKeep(h, h');
  }

  lemma StepKeepsValid(h: Hub, e: Event)
    requires Valid(h)
    ensures Valid(Step(h, e))
  {
    match e
    case EConnect(v) => ConnectKeepsValid(h, v);
    case EAttach(v, s, ch, o) => AttachKeepsValid(h, v, s, ch, o);
    case EFanOut(t, kind, body) => FanOutKeepsValid(h, t, kind, body);
    case EEnd(t) => EndKeepsValid(h, t);
    case EGone(t) => GoneKeepsValid(h, t);
    case EDetach(v, ch) => DetachKeepsValid(h, v, ch);
    case EClose(v, ch, owner, ok) => CloseKeepsValid(h, v, ch, owner, ok);
    case EDispose(v) => DisposeKeepsValid(h, v);
  }

  lemma {:induction false} RunIsValid(h: Hub, es: seq<Event>)
    requires Valid(h)
    ensures Valid(Run(h, es))
    decreases |es|
  {
    if es != [] {
      RunIsValid(h, es[..|es| - 1]);
      StepKeepsValid(Run(h, es[..|es| - 1]), es[|es| - 1]);
    }
  }

  // ---------------------------------------------------------------- one stream, every run

  lemma AttachFine(h: Hub, u: ViewerId, s: string, c: Channel, o: Opening, k: Sub)
    requires Valid(h) && Fine(h, k)
    ensures Fine(Attach(h, u, s, c, o), k)
  {
    if u in h.viewers && !h.viewers[u].closed {
      if Refuses(h.viewers[u], h.taps, s, c) {
        SendFine(h, u, Attached(c, false), k);
      } else {
        var (h1, t) := Find(h, s);
        FindKeepsValid(h, s);
        FindFine(h, s, k);
        assert TapOk(h1.taps[t]);
        OpenFine(h1, t, o, k);
        OpenShape(h1, t, o);
        NotAboard(h, u, s, c, t);
        SendFine(Open(h1, t, o), u, Attached(c, false), k);
        JoinFine(Open(h1, t, o), u, t, c, k);
      }
    }
  }

  lemma DetachFine(h: Hub, u: ViewerId, c: Channel, k: Sub)
    requires Valid(h) && Fine(h, k) && (u, c) != (k.v, k.ch)
    ensures Fine(Detach(h, u, c), k)
  {
    if u in h.viewers && !h.viewers[u].closed {
      var w := h.viewers[u];
      if c in w.channels {
        var w', ts := w.(channels := w.channels - {c}), {w.channels[c]};
        OneChannelPerTap(h, u, c);
        LeaveFine(h, u, w', ts, k);
        SendFine(Leave(h.(viewers := h.viewers[u := w']), u, ts), u, Detached(c, true), k);
      } else {
        SendFine(h, u, Detached(c, false), k);
      }
    }
  }

  lemma CloseFine(h: Hub, u: ViewerId, c: Channel, owner: bool, ok: bool, k: Sub)
    requires Fine(h, k) && (u, c) != (k.v, k.ch)
    ensures Fine(Close(h, u, c, owner, ok), k)
  {
    if u in h.viewers && !h.viewers[u].closed {
      if c in h.viewers[u].channels && owner {
        var t, g := h.viewers[u].channels[c], Shut(h, u, c);
        ShutFine(h, u, c, k);
        EndFine(g, t, k);
        SendFine(g, u, Failed, k);
        SendFine(End(g, t), u, Closed(c, true), k);
      } else {
        SendFine(h, u, Closed(c, false), k);
      }
    }
  }

  lemma DisposeFine(h: Hub, u: ViewerId, k: Sub)
    requires Fine(h, k) && u != k.v
    ensures Fine(Dispose(h, u), k)
  {
    if u in h.viewers && !h.viewers[u].closed {
      AllGivenUp(h.viewers[u]);
      LeaveFine(h, u, h.viewers[u].(closed := true, channels := map[]), h.viewers[u].channels.Values, k);
    }
  }

  /** What takes `ch` from an open viewer `v`: DETACH and CLOSE of it, and the end of the connection. */
  predicate TakesOff(h: Hub, e: Event, v: ViewerId, ch: Channel) {
    On(h, v, ch) && !On(Step(h, e), v, ch)
  }

  lemma OwnRequests(h: Hub, e: Event, v: ViewerId, ch: Channel)
    requires On(h, v, ch) && !h.viewers[v].closed && !TakesOff(h, e, v, ch)
    ensures e != EDetach(v, ch) && e != EDispose(v)
    ensures e.EClose? && (e.v, e.ch) == (v, ch) ==> !e.owner
  {
  }

  lemma StepFine(h: Hub, e: Event, k: Sub)
    requires Valid(h) && Fine(h, k) && !TakesOff(h, e, k.v, k.ch)
    ensures Fine(Step(h, e), k)
  {
    OwnRequests(h, e, k.v, k.ch);
    match e
    case EConnect(u) => if u !in h.viewers { StillClear(h, Step(h, e), k); }
    case EAttach(u, s, c, o) => AttachFine(h, u, s, c, o, k);
    case EFanOut(t, kind, body) => FanFine(h, t, kind, body, k);
    case EEnd(t) => EndFine(h, t, k);
    case EGone(t) => GoneFine(h, t, k);
    case EDetach(u, c) => DetachFine(h, u, c, k);
    case EClose(u, c, owner, ok) => if (u, c) == (k.v, k.ch) { SendFine(h, u, Closed(c, false), k); } else { CloseFine(h, u, c, owner, ok, k); }
    case EDispose(u) => DisposeFine(h, u, k);
  }

  /** `ch` stays attached through the whole of `es`. */
  predicate StaysOn(h: Hub, es: seq<Event>, v: ViewerId, ch: Channel) {
    forall i :: 0 <= i <= |es| ==> On(Run(h, es[..i]), v, ch)
  }

  lemma StaysOnPrefix(h: Hub, es: seq<Event>, v: ViewerId, ch: Channel)
    requires es != [] && StaysOn(h, es, v, ch)
    ensures StaysOn(h, es[..|es| - 1], v, ch) && On(Run(h, es), v, ch)
  {
    var front := es[..|es| - 1];
    forall i | 0 <= i <= |front| ensures On(Run(h, front[..i]), v, ch) { assert front[..i] == es[..i]; }
    assert es[..|es|] == es;
  }

  lemma {:induction false} RunFine(h: Hub, es: seq<Event>, k: Sub)
    requires Valid(h) && Fine(h, k) && StaysOn(h, es, k.v, k.ch)
    ensures Fine(Run(h, es), k)
    decreases |es|
  {
    if es != [] {
      var front := es[..|es| - 1];
      StaysOnPrefix(h, es, k.v, k.ch);
      RunFine(h, front, k);
      RunIsValid(h, front);
      StepFine(Run(h, front), es[|es| - 1], k);
    }
  }
}
