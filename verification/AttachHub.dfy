/** The hub as an object (src/host/attachHub.ts): taps and viewers updated in place, loops over maps. */
module AttachHub {
  import opened Prelude
  import opened Replay
  import S = AttachStreams

  class AttachHub {
    const cap: nat
    var taps: seq<S.Tap>
    var current: map<string, S.TapId>
    var viewers: map<S.ViewerId, S.Viewer>
    ghost var shut: set<(S.ViewerId, S.Channel)>

    ghost function View(): S.Hub
      reads this
    {
      S.Hub(cap, taps, current, viewers, shut)
    }

    constructor (cap: nat)
      ensures View() == S.Fresh(cap)
    {
      this.cap := cap;
      taps, current, viewers, shut := [], map[], map[], {};
    }

    static function Given(w: S.Viewer, f: S.Frame): S.Viewer { w.(sent := w.sent + [f]) }

    /** Viewer.deliver, deliverEnded and reply: nothing goes to a closed viewer. */
    method Send(v: S.ViewerId, f: S.Frame)
      modifies this`viewers
      ensures View() == S.Send(old(View()), v, [f])
    {
      if v in viewers && !viewers[v].closed {
        viewers := viewers[v := viewers[v].(sent := viewers[v].sent + [f])];
      }
    }

    method Retire(t: S.TapId)
      requires t < |taps|
      modifies this`current
      ensures View() == S.Retire(old(View()), t)
    {
      if taps[t].session in current && current[taps[t].session] == t {
        current := current - {taps[t].session};
      }
    }

    /** SessionTap.fanOut: append to the ring, then one frame per viewer. */
    method FanOut(t: S.TapId, kind: S.Kind, body: seq<byte>)
      modifies this`taps, this`viewers
      ensures View() == S.FanOut(old(View()), t, kind, body)
    {
      if t >= |taps| || taps[t].gone {
        return;
      }
      var all := taps[t].viewers;
      taps := taps[t := taps[t].(history := taps[t].history + body)];
      SendEach(all, map v | v in all :: S.Data(all[v], kind, body));
      assert viewers == S.FanOut(old(View()), t, kind, body).viewers;
    }

    /** The loops over a tap's viewers: each listed one gets its own frame. */
    method SendEach(all: map<S.ViewerId, S.Channel>, frames: map<S.ViewerId, S.Frame>)
      requires all.Keys == frames.Keys
      modifies this`viewers
      ensures viewers == map v | v in old(viewers) ::
        if v in all && !old(viewers)[v].closed then Given(old(viewers)[v], frames[v]) else old(viewers)[v]
    {
      var todo := all.Keys;
      while todo != {}
        invariant todo <= all.Keys && viewers.Keys == old(viewers).Keys
        invariant forall v :: v in viewers ==>
          viewers[v] == if v in all && v !in todo && !old(viewers)[v].closed then Given(old(viewers)[v], frames[v]) else old(viewers)[v]
        modifies this`viewers
        decreases |todo|
      {
        var v :| v in todo;
        Send(v, frames[v]);
        todo := todo - {v};
      }
    }

    /** SessionTap.end */
    method End(t: S.TapId)
      modifies this`taps, this`viewers, this`current
      ensures View() == S.End(old(View()), t)
    {
      if t >= |taps| || taps[t].ended {
        return;
      }
      var all := taps[t].viewers;
      taps := taps[t := taps[t].(upstream := false, ended := true)];
      Retire(t);
      SendEach(all, map v | v in all :: S.Ended(all[v]));
      assert viewers == S.End(old(View()), t).viewers;
    }

    /** onGone: the broker connection dropped. */
    method Gone(t: S.TapId)
      modifies this`taps, this`viewers, this`current
      ensures View() == S.Gone(old(View()), t)
    {
      if t < |taps| {
        taps := taps[t := taps[t].(gone := true)];
        End(t);
      }
    }

    /** AttachHub.tap */
    method Find(s: string) returns (t: S.TapId)
      modifies this`taps, this`current
      ensures (View(), t) == S.Find(old(View()), s)
    {
      if s in current {
        return current[s];
      }
      t := |taps|;
      taps := taps + [S.Tap(s, [], map[], false, false, false)];
      current := current[s := t];
    }

    /** SessionTap.open, with what the broker does meanwhile. */
    method Open(t: S.TapId, o: S.Opening)
      requires t < |taps|
      modifies this`taps, this`current
      ensures View() == S.Open(old(View()), t, o)
    {
      if taps[t].upstream || taps[t].ended {
        return;
      }
      var nobody := |taps[t].viewers| == 0;
      taps := taps[t := S.Opened(taps[t], o)];
      if o.dies || o.gone || (!o.ok && nobody) {
        Retire(t);
      }
    }

    /** SessionTap.join once the tap is open, and the rest of Viewer.attach. */
    method Join(v: S.ViewerId, t: S.TapId, ch: S.Channel)
      requires v in viewers && !viewers[v].closed && t < |taps|
      modifies this`taps, this`viewers
      ensures View() == S.Join(old(View()), v, t, ch)
    {
      JoinIsGreeting(View(), v, t, ch);
      taps := taps[t := taps[t].(viewers := taps[t].viewers[v := ch])];
      viewers := viewers[v := viewers[v].(channels := viewers[v].channels[ch := t])];
      Greet(v, ch, Snapshot(taps[t].history, cap), taps[t].ended);
    }

    /** What a newcomer is sent. */
    method Greet(v: S.ViewerId, ch: S.Channel, snap: seq<byte>, ended: bool)
      modifies this`viewers
      ensures View() == Greeted(old(View()), v, ch, snap, ended)
    {
      Send(v, S.Attached(ch, true));
      if |snap| > 0 {
        Send(v, S.Data(ch, S.History, snap));
      }
      if ended {
        Send(v, S.Ended(ch));
      }
    }

    static ghost function Greeted(h: S.Hub, v: S.ViewerId, ch: S.Channel, snap: seq<byte>, ended: bool): S.Hub {
      var a := S.Send(h, v, [S.Attached(ch, true)]);
      var b := if |snap| > 0 then S.Send(a, v, [S.Data(ch, S.History, snap)]) else a;
      if ended then S.Send(b, v, [S.Ended(ch)]) else b
    }

    /** The hub between the join and the greeting. */
    static ghost function Boarding(h: S.Hub, v: S.ViewerId, t: S.TapId, ch: S.Channel): S.Hub
      requires v in h.viewers && t < |h.taps|
    {
      h.(taps := h.taps[t := h.taps[t].(viewers := h.taps[t].viewers[v := ch])],
         viewers := h.viewers[v := h.viewers[v].(channels := h.viewers[v].channels[ch := t])])
    }

    static lemma TwoSends(h: S.Hub, v: S.ViewerId, a: seq<S.Frame>, b: seq<S.Frame>)
      ensures S.Send(S.Send(h, v, a), v, b) == S.Send(h, v, a + b)
    {
      if v in h.viewers && !h.viewers[v].closed {
        var w := h.viewers[v];
        Assoc(w.sent, a, b);
        assert h.viewers[v := w.(sent := w.sent + a)][v := w.(sent := w.sent + (a + b))] == h.viewers[v := w.(sent := w.sent + (a + b))];
      }
    }

    static lemma SendNothing(h: S.Hub, v: S.ViewerId)
      ensures S.Send(h, v, []) == h
    {
      if v in h.viewers {
        Units(h.viewers[v].sent);
        assert h.viewers[v := h.viewers[v]] == h.viewers;
      }
    }

    /** Three messages or one make the same greeting. */
    static lemma GreetingIsOneSend(h: S.Hub, v: S.ViewerId, ch: S.Channel, snap: seq<byte>, ended: bool)
      ensures Greeted(h, v, ch, snap, ended) ==
        S.Send(h, v, [S.Attached(ch, true)] + (if |snap| > 0 then [S.Data(ch, S.History, snap)] else []) + (if ended then [S.Ended(ch)] else []))
    {
      var f1 := [S.Attached(ch, true)];
      var f2 := if |snap| > 0 then [S.Data(ch, S.History, snap)] else [];
      var f3 := if ended then [S.Ended(ch)] else [];
      TwoSends(h, v, f1, f2);
      TwoSends(h, v, f1 + f2, f3);
      SendNothing(S.Send(h, v, f1), v);
      SendNothing(S.Send(h, v, f1 + f2), v);
    }

    static lemma JoinIsGreeting(h: S.Hub, v: S.ViewerId, t: S.TapId, ch: S.Channel)
      requires v in h.viewers && !h.viewers[v].closed && t < |h.taps|
      ensures S.Join(h, v, t, ch) == Greeted(Boarding(h, v, t, ch), v, ch, Snapshot(h.taps[t].history, h.cap), h.taps[t].ended)
    {
      var snap, ended, w := Snapshot(h.taps[t].history, h.cap), h.taps[t].ended, h.viewers[v];
      GreetingIsOneSend(Boarding(h, v, t, ch), v, ch, snap, ended);
      var f1 := [S.Attached(ch, true)];
      var f2 := if |snap| > 0 then [S.Data(ch, S.History, snap)] else [];
      var f3 := if ended then [S.Ended(ch)] else [];
      assert w.sent + f1 + f2 + f3 == w.sent + (f1 + f2 + f3);
      var w' := w.(channels := w.channels[ch := t], sent := w.sent + (f1 + f2 + f3));
      assert h.viewers[v := w.(channels := w.channels[ch := t])][v := w'] == h.viewers[v := w'];
    }

    /** Viewer.attach */
    method Attach(v: S.ViewerId, s: string, ch: S.Channel, o: S.Opening)
      requires S.Valid(View())
      modifies this
      ensures View() == S.Attach(old(View()), v, s, ch, o)
    {
      if v !in viewers || viewers[v].closed {
        return;
      }
      if S.Refuses(viewers[v], taps, s, ch) {
        Send(v, S.Attached(ch, false));
        return;
      }
      S.FindKeepsValid(View(), s);
      var t := Find(s);
      var was := taps[t];
      S.OpenShape(View(), t, o);
      Open(t, o);
      if !was.upstream && !was.ended && !o.ok {
        Send(v, S.Attached(ch, false));
      } else {
        Join(v, t, ch);
      }
    }

    /** SessionTap.leave */
    method LeaveTap(v: S.ViewerId, t: S.TapId)
      requires t < |taps| && S.AllCurrent(View())
      modifies this`taps, this`current
      ensures View() == S.Leave(old(View()), v, {t})
    {
      if v in taps[t].viewers {
        var last := |taps[t].viewers - {v}| == 0;
        taps := taps[t := S.LeftTap(taps[t], v)];
        if last {
          Retire(t);
        }
      }
      LeftOne(old(View()), View(), v, t);
    }

    static lemma LeftOne(h: S.Hub, h': S.Hub, v: S.ViewerId, t: S.TapId)
      requires t < |h.taps| && S.AllCurrent(h) && h'.cap == h.cap && h'.viewers == h.viewers && h'.shut == h.shut
      requires h'.taps == h.taps[t := S.LeftTap(h.taps[t], v)]
      requires h'.current == if S.Empties(h, v, t) then S.Retire(h, t).current else h.current
      ensures h' == S.Leave(h, v, {t})
    {
      assert h'.taps == S.Leave(h, v, {t}).taps;
      LeftCurrent(h, v, t);
    }

    static lemma LeftAt(h: S.Hub, v: S.ViewerId, t: S.TapId, s: string)
      requires t < |h.taps| && (s in h.current ==> S.CurrentOk(h, s))
      ensures s in S.Leave(h, v, {t}).current <==> s in (if S.Empties(h, v, t) then S.Retire(h, t).current else h.current)
    {
    }

    static lemma LeftCurrent(h: S.Hub, v: S.ViewerId, t: S.TapId)
      requires t < |h.taps| && S.AllCurrent(h)
      ensures S.Leave(h, v, {t}).current == if S.Empties(h, v, t) then S.Retire(h, t).current else h.current
    {
      var a, b := S.Leave(h, v, {t}).current, if S.Empties(h, v, t) then S.Retire(h, t).current else h.current;
      forall s ensures s in a <==> s in b { LeftAt(h, v, t, s); }
      forall s | s in a ensures a[s] == b[s] {
      }
      assert a.Keys == b.Keys;
    }

    /** DETACH */
    method Detach(v: S.ViewerId, ch: S.Channel)
      requires S.Valid(View())
      modifies this
      ensures View() == S.Detach(old(View()), v, ch)
    {
      if v !in viewers || viewers[v].closed {
        return;
      }
      if ch !in viewers[v].channels {
        Send(v, S.Detached(ch, false));
        return;
      }
      assert S.On(View(), v, ch) && S.Linked(View(), v, ch);
      var t := viewers[v].channels[ch];
      viewers := viewers[v := viewers[v].(channels := viewers[v].channels - {ch})];
      assert S.AllCurrent(View()) by { SameCurrent(old(View()), View()); }
      LeaveTap(v, t);
      Send(v, S.Detached(ch, true));
    }

    static lemma SameCurrent(h: S.Hub, h': S.Hub)
      requires S.AllCurrent(h) && h'.taps == h.taps && h'.current == h.current
      ensures S.AllCurrent(h')
    {
      forall s | s in h'.current ensures S.CurrentOk(h', s) { assert S.CurrentOk(h, s); }
    }

    /** Viewer.close; `ok` tells whether the broker answered. */
    method Close(v: S.ViewerId, ch: S.Channel, owner: bool, ok: bool)
      requires S.Valid(View())
      modifies this
      ensures View() == S.Close(old(View()), v, ch, owner, ok)
    {
      if v !in viewers || viewers[v].closed {
        return;
      }
      if ch !in viewers[v].channels || !owner {
        Send(v, S.Closed(ch, false));
        return;
      }
      assert S.On(View(), v, ch) && S.Linked(View(), v, ch);
      var t := viewers[v].channels[ch];
      viewers := viewers[v := viewers[v].(channels := viewers[v].channels - {ch})];
      shut := shut + {(v, ch)};
      if taps[t].upstream && !ok {
        Send(v, S.Failed);
        return;
      }
      End(t);
      Send(v, S.Closed(ch, true));
    }

    /** Viewer.dispose */
    method Dispose(v: S.ViewerId)
      requires S.Valid(View())
      modifies this
      ensures View() == S.Dispose(old(View()), v)
    {
      if v !in viewers || viewers[v].closed {
        return;
      }
      var left := viewers[v].channels.Values;
      Boarded(View(), v);
      ghost var h := View();
      viewers := viewers[v := viewers[v].(closed := true, channels := map[])];
      SameCurrent(h, View());
      LeaveTaps(v, left);
    }

    /** Leaves one tap after the other. */
    method LeaveTaps(v: S.ViewerId, ts: set<S.TapId>)
      requires S.AllCurrent(View()) && forall t :: t in ts ==> t < |taps|
      modifies this`taps, this`current
      ensures View() == S.Leave(old(View()), v, ts)
    {
      ghost var g, gone: set<S.TapId> := View(), {};
      LeaveNone(g, v);
      var todo := ts;
      while todo != {}
        invariant gone + todo == ts && gone !! todo && View() == S.Leave(g, v, gone)
        decreases |todo|
        modifies this`taps, this`current
      {
        var t :| t in todo;
        LeaveCurrent(g, v, gone);
        LeaveMore(g, v, gone, t);
        LeaveTap(v, t);
        gone, todo := gone + {t}, todo - {t};
      }
      assert gone == ts;
    }

    static lemma Boarded(h: S.Hub, v: S.ViewerId)
      requires S.Valid(h) && v in h.viewers
      ensures forall t :: t in h.viewers[v].channels.Values ==> t < |h.taps|
    {
      forall c | c in h.viewers[v].channels ensures h.viewers[v].channels[c] < |h.taps| { assert S.On(h, v, c) && S.Linked(h, v, c); }
    }

    static lemma LeaveNone(h: S.Hub, v: S.ViewerId)
      ensures S.Leave(h, v, {}) == h
    {
      assert S.Leave(h, v, {}).current == h.current;
      assert S.Leave(h, v, {}).taps == h.taps;
    }

    static lemma LeaveCurrent(h: S.Hub, v: S.ViewerId, ts: set<S.TapId>)
      requires S.AllCurrent(h)
      ensures S.AllCurrent(S.Leave(h, v, ts))
    {
      var h' := S.Leave(h, v, ts);
      forall s | s in h'.current ensures S.CurrentOk(h', s) { assert S.CurrentOk(h, s); }
    }

    static lemma LeaveMore(h: S.Hub, v: S.ViewerId, ts: set<S.TapId>, t: S.TapId)
      requires t !in ts && t < |h.taps|
      ensures S.Leave(S.Leave(h, v, ts), v, {t}) == S.Leave(h, v, ts + {t})
    {
      var m := S.Leave(h, v, ts);
      var a, b := S.Leave(m, v, {t}), S.Leave(h, v, ts + {t});
      assert m.taps[t] == h.taps[t] && (S.Empties(m, v, t) <==> S.Empties(h, v, t));
      assert a.taps == b.taps;
      CurrentMore(h, m, v, ts, t);
    }

    static lemma CurrentMore(h: S.Hub, m: S.Hub, v: S.ViewerId, ts: set<S.TapId>, t: S.TapId)
      requires m == S.Leave(h, v, ts) && t !in ts && (S.Empties(m, v, t) <==> S.Empties(h, v, t))
      ensures S.Leave(m, v, {t}).current == S.Leave(h, v, ts + {t}).current
    {
      var a, b := S.Leave(m, v, {t}).current, S.Leave(h, v, ts + {t}).current;
      assert forall s :: s in a <==> s in b;
      assert forall s :: s in a ==> a[s] == b[s];
    }
  }
}
