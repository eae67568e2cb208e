/**
 * The keyed async cache (src/main/asyncCache.ts asyncKeyedCache): concurrent misses share a
 * flight, a hard invalidation beats flights in the air, and staleness is only ever capped.
 */
module AsyncCache {
  import opened Prelude

  type Key = string

  /** `began` is the position in the history at which the compute started. */
  datatype Flight<V> = Flight(key: Key, began: nat, dropped: bool, staleAt: Option<int>, outcome: Outcome<V>) {
    predicate Done() { !outcome.Pending? }
  }

  /** How compute() settled. */
  datatype Outcome<V> = Pending | Resolved(v: V) | Rejected

  datatype Entry<V> = Entry(value: V, from: nat, at: int, staleAt: Option<int>)

  /** The history of a cache: what freshness is judged against. */
  datatype Mark =
    | Began(key: Key)
    | Invalidated(key: Key)
    | Cleared
    | Staled(key: Key, at: int, grace: int)

  datatype Options = Options(maxEntries: int, ttl: Option<int>)

  datatype Cache<V> = Cache(entries: map<Key, Entry<V>>, flights: map<Key, nat>, all: seq<Flight<V>>, log: seq<Mark>)

  datatype Answer<V> = Hit(value: V, from: nat) | Joined(flight: nat) | Started(flight: nat)

  function Fresh<V>(): Cache<V> { Cache(map[], map[], [], []) }

  // ---------------------------------------------------------------- the operations

  function MinHorizon(a: Option<int>, b: int): Option<int> { Some(if a == None then b else Min(a.value, b)) }

  predicate IsFresh<V>(e: Entry<V>, o: Options, now: int) {
    && (o.ttl == None || now - e.at < o.ttl.value)
    && (e.staleAt == None || now < e.staleAt.value)
  }

  function Get<V>(c: Cache<V>, o: Options, key: Key, now: int): (Cache<V>, Answer<V>) {
    if key in c.entries && IsFresh(c.entries[key], o, now) then (c, Hit(c.entries[key].value, c.entries[key].from))
    else if key in c.flights then (c, Joined(c.flights[key]))
    else (c.(flights := c.flights[key := |c.all|],
             all := c.all + [Flight(key, |c.log|, false, None, Pending)],
             log := c.log + [Began(key)]),
          Started(|c.all|))
  }

  /** The flight leaves the register when it settles, unless another has taken its place. */
  function Landed<V>(c: Cache<V>, f: nat, how: Outcome<V>): Cache<V>
    requires f < |c.all|
  {
    var fl := c.all[f];
    c.(all := c.all[f := fl.(outcome := how)],
       flights := if fl.key in c.flights && c.flights[fl.key] == f then c.flights - {fl.key} else c.flights)
  }

  function Store<V>(c: Cache<V>, o: Options, f: nat, v: V, now: int): map<Key, Entry<V>>
    requires f < |c.all|
  {
    var fl := c.all[f];
    var kept := if fl.key !in c.entries && |c.entries| >= o.maxEntries then map[] else c.entries;
    kept[fl.key := Entry(v, f, now, fl.staleAt)]
  }

  /** compute() resolved with `v`. */
  function Resolve<V>(c: Cache<V>, o: Options, f: nat, v: V, now: int): Cache<V> {
    if f >= |c.all| || c.all[f].Done() then c
    else if c.all[f].dropped then Landed(c, f, Resolved(v))
    else Landed(c.(entries := Store(c, o, f, v, now)), f, Resolved(v))
  }

  function Reject<V>(c: Cache<V>, f: nat): Cache<V> {
    if f >= |c.all| || c.all[f].Done() then c else Landed(c, f, Rejected)
  }

  function Invalidate<V>(c: Cache<V>, key: Key): Cache<V> {
    Cache(c.entries - {key}, c.flights - {key},
          if key in c.flights && c.flights[key] < |c.all|
          then c.all[c.flights[key] := c.all[c.flights[key]].(dropped := true)] else c.all,
          c.log + [Invalidated(key)])
  }

  function MarkStale<V>(c: Cache<V>, key: Key, now: int, grace: int): Cache<V> {
    Cache(if key in c.entries
          then c.entries[key := c.entries[key].(staleAt := MinHorizon(c.entries[key].staleAt, now + grace))] else c.entries,
          c.flights,
          if key in c.flights && c.flights[key] < |c.all|
          then c.all[c.flights[key] := c.all[c.flights[key]].(staleAt := MinHorizon(c.all[c.flights[key]].staleAt, now + grace))]
          else c.all,
          c.log + [Staled(key, now, grace)])
  }

  function Clear<V>(c: Cache<V>): Cache<V> {
    Cache(map[], map[], DropAll(c.all, c.flights.Values), c.log + [Cleared])
  }

  datatype Op<V> =
    | OGet(key: Key, now: int)
    | OResolve(f: nat, v: V, now: int)
    | OReject(f: nat)
    | OInvalidate(key: Key)
    | OMarkStale(key: Key, now: int, grace: int)
    | OClear

  function Step<V>(c: Cache<V>, o: Options, op: Op<V>): Cache<V> {
    match op
    case OGet(key, now) => Get(c, o, key, now).0
    case OResolve(f, v, now) => Resolve(c, o, f, v, now)
    case OReject(f) => Reject(c, f)
    case OInvalidate(key) => Invalidate(c, key)
    case OMarkStale(key, now, grace) => MarkStale(c, key, now, grace)
    case OClear => Clear(c)
  }

  function Run<V>(o: Options, ops: seq<Op<V>>): Cache<V>
    decreases |ops|
  {
    if ops == [] then Fresh() else Step(Run(o, ops[..|ops| - 1]), o, ops[|ops| - 1])
  }

  // ---------------------------------------------------------------- freshness against the history

  predicate Kills(m: Mark, key: Key) { m == Invalidated(key) || m == Cleared }

  /** Nothing has invalidated `key` since position `began`. */
  predicate Clean(log: seq<Mark>, key: Key, began: nat) {
    forall j :: began <= j < |log| ==> !Kills(log[j], key)
  }

  /** Every markStale of `key` since `began` bounds the horizon. */
  predicate Capped(log: seq<Mark>, key: Key, began: nat, horizon: Option<int>) {
    forall j :: began <= j < |log| && log[j].Staled? && log[j].key == key
      ==> horizon.Some? && horizon.value <= log[j].at + log[j].grace
  }

  predicate FlightOk<V>(c: Cache<V>, f: nat)
    requires f < |c.all|
  {
    var fl := c.all[f];
    && fl.began < |c.log| && c.log[fl.began] == Began(fl.key)
    && (!fl.dropped && !fl.Done() ==>
          fl.key in c.flights && c.flights[fl.key] == f
          && Clean(c.log, fl.key, fl.began) && Capped(c.log, fl.key, fl.began, fl.staleAt))
  }

  ghost predicate EntryOk<V>(c: Cache<V>, key: Key)
    requires key in c.entries
  {
    var e := c.entries[key];
    && e.from < |c.all| && c.all[e.from].key == key && c.all[e.from].outcome == Resolved(e.value) && !c.all[e.from].dropped
    && c.all[e.from].began < |c.log|
    && Clean(c.log, key, c.all[e.from].began) && Capped(c.log, key, c.all[e.from].began, e.staleAt)
  }

  /** A registered flight is under way, for this key, and not dropped. */
  predicate SlotOk<V>(c: Cache<V>, key: Key)
    requires key in c.flights
  {
    && c.flights[key] < |c.all|
    && c.all[c.flights[key]].key == key && !c.all[c.flights[key]].dropped && !c.all[c.flights[key]].Done()
  }

  ghost predicate Valid<V>(c: Cache<V>, o: Options) {
    && (forall f :: 0 <= f < |c.all| ==> FlightOk(c, f))
    && (forall key :: key in c.entries ==> EntryOk(c, key))
    && (forall key :: key in c.flights ==> SlotOk(c, key))
    && (1 <= o.maxEntries ==> |c.entries| <= o.maxEntries)
  }

  lemma GetKeepsValid<V>(c: Cache<V>, o: Options, key: Key, now: int)
    requires Valid(c, o)
    ensures Valid(Get(c, o, key, now).0, o)
  {
    var c' := Get(c, o, key, now).0;
    if c' != c {
      forall f | 0 <= f < |c'.all| ensures FlightOk(c', f) {
        if f < |c.all| { assert FlightOk(c, f); }
      }
      forall k | k in c'.entries ensures EntryOk(c', k) { assert EntryOk(c, k); }
    }
  }

  /** Landing concerns one flight and its slot. */
  lemma LandedFlights<V>(c: Cache<V>, f: nat, how: Outcome<V>)
    requires f < |c.all| && !c.all[f].Done() && !how.Pending?
    requires forall g :: 0 <= g < |c.all| ==> FlightOk(c, g)
    requires forall key :: key in c.flights ==> SlotOk(c, key)
    ensures forall g :: 0 <= g < |c.all| ==> FlightOk(Landed(c, f, how), g)
    ensures forall key :: key in Landed(c, f, how).flights ==> SlotOk(Landed(c, f, how), key)
  {
    var c' := Landed(c, f, how);
    assert FlightOk(c, f);
    forall g | 0 <= g < |c'.all| ensures FlightOk(c', g) { assert FlightOk(c, g); }
    forall key | key in c'.flights ensures SlotOk(c', key) { assert SlotOk(c, key); }
  }

  lemma LandedKeepsValid<V>(c: Cache<V>, o: Options, f: nat, how: Outcome<V>)
    requires Valid(c, o) && f < |c.all| && !c.all[f].Done() && !how.Pending?
    ensures Valid(Landed(c, f, how), o)
  {
    var c' := Landed(c, f, how);
    LandedFlights(c, f, how);
    forall k | k in c'.entries ensures EntryOk(c', k) { assert EntryOk(c, k); }
  }

  lemma StoreKeepsBound<V>(c: Cache<V>, o: Options, f: nat, v: V, now: int)
    requires f < |c.all| && (1 <= o.maxEntries ==> |c.entries| <= o.maxEntries)
    ensures 1 <= o.maxEntries ==> |Store(c, o, f, v, now)| <= o.maxEntries
  {
    var key := c.all[f].key;
    var m := Store(c, o, f, v, now);
    if key in c.entries {
      assert m.Keys == c.entries.Keys;
    } else if |c.entries| >= o.maxEntries {
      assert m.Keys == {key};
    } else {
      assert m.Keys == c.entries.Keys + {key};
    }
  }

  lemma ResolveKeepsValid<V>(c: Cache<V>, o: Options, f: nat, v: V, now: int)
    requires Valid(c, o)
    ensures Valid(Resolve(c, o, f, v, now), o)
  {
    if f < |c.all| && !c.all[f].Done() {
      if c.all[f].dropped {
        LandedKeepsValid(c, o, f, Resolved(v));
      } else {
        var m := c.(entries := Store(c, o, f, v, now));
        var c' := Landed(m, f, Resolved(v));
        assert FlightOk(c, f);
        StoreKeepsBound(c, o, f, v, now);
        forall g | 0 <= g < |m.all| ensures FlightOk(m, g) { assert FlightOk(c, g); }
        forall key | key in m.flights ensures SlotOk(m, key) { assert SlotOk(c, key); }
        LandedFlights(m, f, Resolved(v));
        forall k | k in c'.entries ensures EntryOk(c', k) {
          if k != c.all[f].key { assert EntryOk(c, k); }
        }
      }
    }
  }

  /** A new last mark that does not kill `key` and lies beyond no horizon changes nothing for it. */
  lemma LogGrows(log: seq<Mark>, m: Mark, key: Key, began: nat, horizon: Option<int>)
    requires Clean(log, key, began) && Capped(log, key, began, horizon) && !Kills(m, key)
    requires m.Staled? && m.key == key ==> horizon.Some? && horizon.value <= m.at + m.grace
    ensures Clean(log + [m], key, began) && Capped(log + [m], key, began, horizon)
  {
  }

  lemma CappedLower(log: seq<Mark>, key: Key, began: nat, a: Option<int>, b: int)
    requires Capped(log, key, began, a)
    ensures Capped(log, key, began, MinHorizon(a, b))
  {
  }

  lemma InvalidateFlight<V>(c: Cache<V>, key: Key, g: nat)
    requires g < |c.all| && FlightOk(c, g) && (key in c.flights ==> SlotOk(c, key))
    ensures FlightOk(Invalidate(c, key), g)
  {
    var c', fl := Invalidate(c, key), c.all[g];
    if !fl.dropped && !fl.Done() && fl.key != key {
      assert c'.all[g] == fl;
      LogGrows(c.log, Invalidated(key), fl.key, fl.began, fl.staleAt);
    }
  }

  lemma InvalidateEntry<V>(c: Cache<V>, key: Key, k: Key)
    requires k in c.entries && k != key && EntryOk(c, k) && (key in c.flights ==> SlotOk(c, key))
    ensures k in Invalidate(c, key).entries && EntryOk(Invalidate(c, key), k)
  {
    var e := c.entries[k];
    assert Invalidate(c, key).all[e.from] == c.all[e.from];
    LogGrows(c.log, Invalidated(key), k, c.all[e.from].began, e.staleAt);
  }

  lemma InvalidateKeepsValid<V>(c: Cache<V>, o: Options, key: Key)
    requires Valid(c, o)
    ensures Valid(Invalidate(c, key), o)
  {
    var c' := Invalidate(c, key);
    forall g | 0 <= g < |c'.all| ensures FlightOk(c', g) { InvalidateFlight(c, key, g); }
    forall k | k in c'.entries ensures EntryOk(c', k) { InvalidateEntry(c, key, k); }
    forall k | k in c'.flights ensures SlotOk(c', k) { InvalidateSlot(c, key, k); }
    InvalidateShrinks(c, key);
  }

  lemma InvalidateSlot<V>(c: Cache<V>, key: Key, k: Key)
    requires k in c.flights && k != key && SlotOk(c, k) && (key in c.flights ==> SlotOk(c, key))
    ensures k in Invalidate(c, key).flights && SlotOk(Invalidate(c, key), k)
  {
  }

  lemma InvalidateShrinks<V>(c: Cache<V>, key: Key)
    ensures |Invalidate(c, key).entries| <= |c.entries|
  {
    SubsetSize(Invalidate(c, key).entries.Keys, c.entries.Keys);
  }

  lemma {:induction false} SubsetSize<T>(a: set<T>, b: set<T>)
    requires a <= b
    ensures |a| <= |b|
    decreases a
  {
    if a != {} {
      var x :| x in a;
      SubsetSize(a - {x}, b - {x});
    }
  }

  lemma MarkStaleFlight<V>(c: Cache<V>, key: Key, now: int, grace: int, g: nat)
    requires g < |c.all| && FlightOk(c, g) && (key in c.flights ==> SlotOk(c, key))
    ensures FlightOk(MarkStale(c, key, now, grace), g)
  {
    var c', fl := MarkStale(c, key, now, grace), c.all[g];
    if !fl.dropped && !fl.Done() {
      if fl.key == key {
        CappedLower(c.log, key, fl.began, fl.staleAt, now + grace);
      } else {
        assert c'.all[g] == fl;
      }
      LogGrows(c.log, Staled(key, now, grace), fl.key, fl.began, c'.all[g].staleAt);
    }
  }

  lemma MarkStaleEntry<V>(c: Cache<V>, key: Key, now: int, grace: int, k: Key)
    requires k in c.entries && EntryOk(c, k) && (key in c.flights ==> SlotOk(c, key))
    ensures k in MarkStale(c, key, now, grace).entries && EntryOk(MarkStale(c, key, now, grace), k)
  {
    var c', e := MarkStale(c, key, now, grace), c.entries[k];
    var began := c.all[e.from].began;
    assert c'.all[e.from] == c.all[e.from];
    if k == key {
      CappedLower(c.log, key, began, e.staleAt, now + grace);
    }
    LogGrows(c.log, Staled(key, now, grace), k, began, c'.entries[k].staleAt);
  }

  lemma MarkStaleKeepsValid<V>(c: Cache<V>, o: Options, key: Key, now: int, grace: int)
    requires Valid(c, o)
    ensures Valid(MarkStale(c, key, now, grace), o)
  {
    var c' := MarkStale(c, key, now, grace);
    forall g | 0 <= g < |c'.all| ensures FlightOk(c', g) { MarkStaleFlight(c, key, now, grace, g); }
    forall k | k in c'.entries ensures EntryOk(c', k) { MarkStaleEntry(c, key, now, grace, k); }
    forall k | k in c'.flights ensures SlotOk(c', k) { assert SlotOk(c, k); }
    assert c'.entries.Keys == c.entries.Keys;
  }

  lemma ClearKeepsValid<V>(c: Cache<V>, o: Options)
    requires Valid(c, o)
    ensures Valid(Clear(c), o)
  {
    var c' := Clear(c);
    forall g | 0 <= g < |c'.all| ensures FlightOk(c', g) {
      assert FlightOk(c, g);
      if !c.all[g].dropped && !c.all[g].Done() {
        assert c.flights[c.all[g].key] == g;
        assert g in c.flights.Values;
      }
    }
  }

  lemma StepKeepsValid<V>(c: Cache<V>, o: Options, op: Op<V>)
    requires Valid(c, o)
    ensures Valid(Step(c, o, op), o)
  {
    match op
    case OGet(key, now) => GetKeepsValid(c, o, key, now);
    case OResolve(f, v, now) => ResolveKeepsValid(c, o, f, v, now);
    case OReject(f) => if f < |c.all| && !c.all[f].Done() { LandedKeepsValid(c, o, f, Rejected); }
    case OInvalidate(key) => InvalidateKeepsValid(c, o, key);
    case OMarkStale(key, now, grace) => MarkStaleKeepsValid(c, o, key, now, grace);
    case OClear => ClearKeepsValid(c, o);
  }

  lemma {:induction false} RunIsValid<V>(o: Options, ops: seq<Op<V>>)
    ensures Valid(Run(o, ops), o)
    decreases |ops|
  {
    if ops != [] {
      RunIsValid(o, ops[..|ops| - 1]);
      StepKeepsValid(Run(o, ops[..|ops| - 1]), o, ops[|ops| - 1]);
    }
  }

  /** Some operation of the run is compute `f` resolving with `v`. */
  ghost predicate ResolvedIn<V>(ops: seq<Op<V>>, f: nat, v: V) {
    exists i :: 0 <= i < |ops| && ops[i].OResolve? && ops[i].f == f && ops[i].v == v
  }

  lemma {:induction false} OutcomeIsTheCompute<V>(o: Options, ops: seq<Op<V>>, f: nat)
    requires f < |Run(o, ops).all| && Run(o, ops).all[f].outcome.Resolved?
    ensures ResolvedIn(ops, f, Run(o, ops).all[f].outcome.v)
    decreases |ops|
  {
    var n := |ops| - 1;
    var c, v := Run(o, ops[..n]), Run(o, ops).all[f].outcome.v;
    if f < |c.all| && c.all[f].outcome == Resolved(v) {
      OutcomeIsTheCompute(o, ops[..n], f);
      var i :| 0 <= i < n && ops[..n][i].OResolve? && ops[..n][i].f == f && ops[..n][i].v == v;
      assert ops[i] == ops[..n][i];
    } else {
      assert ops[n].OResolve? && ops[n].f == f && ops[n].v == v;
    }
  }

  /**
   * Over every run and for every clock: a stored value is served only from a compute that began
   * after every invalidation so far, before the horizon of every markStale since, and within its ttl;
   * and it is the value that compute resolved with.
   */
  lemma HitsAreFresh<V>(o: Options, ops: seq<Op<V>>, key: Key, now: int)
    requires Get(Run(o, ops), o, key, now).1.Hit?
    ensures var c := Run(o, ops);
      var a := Get(c, o, key, now).1;
      var f := a.from;
      && f < |c.all| && c.all[f].key == key && !c.all[f].dropped && ResolvedIn(ops, f, a.value)
      && c.all[f].began < |c.log| && c.log[c.all[f].began] == Began(key)
      && (forall j :: 0 <= j < |c.log| && Kills(c.log[j], key) ==> j < c.all[f].began)
      && (forall j :: c.all[f].began <= j < |c.log| && c.log[j].Staled? && c.log[j].key == key
            ==> now < c.log[j].at + c.log[j].grace)
      && (o.ttl.Some? ==> now - c.entries[key].at < o.ttl.value)
  {
    RunIsValid(o, ops);
    var c := Run(o, ops);
    assert EntryOk(c, key);
    assert FlightOk(c, c.entries[key].from);
    OutcomeIsTheCompute(o, ops, c.entries[key].from);
  }

  /** A shared or new flight, too, began after every invalidation so far. */
  lemma MissesAreFresh<V>(o: Options, ops: seq<Op<V>>, key: Key, now: int)
    requires !Get(Run(o, ops), o, key, now).1.Hit?
    ensures var (c, a) := Get(Run(o, ops), o, key, now);
      var f := a.flight;
      && f < |c.all| && c.all[f].key == key && !c.all[f].Done()
      && (forall j :: 0 <= j < |c.log| && Kills(c.log[j], key) ==> j < c.all[f].began)
  {
    RunIsValid(o, ops);
    GetKeepsValid(Run(o, ops), o, key, now);
    var (c, a) := Get(Run(o, ops), o, key, now);
    assert FlightOk(c, a.flight);
  }

  /** At most one flight per key is under way that could still be stored, and the size bound holds. */
  lemma OneFlightPerKey<V>(o: Options, ops: seq<Op<V>>, f: nat, g: nat)
    requires var c := Run(o, ops);
      f < |c.all| && g < |c.all| && c.all[f].key == c.all[g].key
      && !c.all[f].Done() && !c.all[f].dropped && !c.all[g].Done() && !c.all[g].dropped
    ensures f == g
    ensures 1 <= o.maxEntries ==> |Run(o, ops).entries| <= o.maxEntries
  {
    RunIsValid(o, ops);
    assert FlightOk(Run(o, ops), f) && FlightOk(Run(o, ops), g);
  }

  // ---------------------------------------------------------------- exactly when a value is served

  /** The earliest horizon of the markStale calls for `key` since `began`. */
  function Horizon(log: seq<Mark>, key: Key, began: nat): Option<int>
    decreases |log|
  {
    if |log| <= began then None
    else
      var rest, m := Horizon(log[..|log| - 1], key, began), log[|log| - 1];
      if m.Staled? && m.key == key then MinHorizon(rest, m.at + m.grace) else rest
  }

  lemma HorizonSnoc(log: seq<Mark>, m: Mark, key: Key, began: nat)
    requires began <= |log|
    ensures Horizon(log + [m], key, began) ==
      if m.Staled? && m.key == key then MinHorizon(Horizon(log, key, began), m.at + m.grace) else Horizon(log, key, began)
  {
    assert (log + [m])[..|log|] == log;
  }

  /** Before the earliest horizon is before all of them. */
  lemma {:induction false} HorizonIsEarliest(log: seq<Mark>, key: Key, began: nat, now: int)
    ensures (Horizon(log, key, began) == None || now < Horizon(log, key, began).value) <==>
      forall j :: began <= j < |log| && log[j].Staled? && log[j].key == key ==> now < log[j].at + log[j].grace
    decreases |log|
  {
    if |log| > began {
      var n := |log| - 1;
      HorizonIsEarliest(log[..n], key, began, now);
      assert forall j :: began <= j < n ==> log[..n][j] == log[j];
    }
  }

  predicate FlightTimed<V>(c: Cache<V>, f: nat)
    requires f < |c.all|
  {
    var fl := c.all[f];
    !fl.dropped && !fl.Done() ==> fl.staleAt == Horizon(c.log, fl.key, fl.began)
  }

  predicate EntryTimed<V>(c: Cache<V>, key: Key)
    requires key in c.entries && c.entries[key].from < |c.all|
  {
    c.entries[key].staleAt == Horizon(c.log, key, c.all[c.entries[key].from].began)
  }

  /** Flights under way and entries carry exactly that horizon. */
  ghost predicate Timed<V>(c: Cache<V>) {
    && (forall f :: 0 <= f < |c.all| ==> FlightTimed(c, f))
    && (forall key :: key in c.entries && c.entries[key].from < |c.all| ==> EntryTimed(c, key))
  }

  lemma GetTimes<V>(c: Cache<V>, o: Options, key: Key, now: int)
    requires Valid(c, o) && Timed(c)
    ensures Timed(Get(c, o, key, now).0)
  {
    var c' := Get(c, o, key, now).0;
    if c' != c {
      forall f | 0 <= f < |c'.all| ensures FlightTimed(c', f) {
        if f < |c.all| {
          assert FlightOk(c, f) && FlightTimed(c, f);
          HorizonSnoc(c.log, Began(key), c.all[f].key, c.all[f].began);
        } else {
          HorizonSnoc(c.log, Began(key), key, |c.log|);
        }
      }
      forall k | k in c'.entries && c'.entries[k].from < |c'.all| ensures EntryTimed(c', k) {
        assert EntryOk(c, k) && EntryTimed(c, k);
        HorizonSnoc(c.log, Began(key), k, c.all[c.entries[k].from].began);
      }
    }
  }

  /** Landing changes no horizon. */
  lemma LandedTimes<V>(c: Cache<V>, f: nat, how: Outcome<V>)
    requires f < |c.all| && !how.Pending? && Timed(c)
    ensures Timed(Landed(c, f, how))
  {
    var c' := Landed(c, f, how);
    forall g | 0 <= g < |c'.all| ensures FlightTimed(c', g) { assert FlightTimed(c, g); }
    forall k | k in c'.entries && c'.entries[k].from < |c'.all| ensures EntryTimed(c', k) {
      assert EntryTimed(c, k);
      assert c'.all[c.entries[k].from].began == c.all[c.entries[k].from].began;
    }
  }

  lemma StoreTimes<V>(c: Cache<V>, o: Options, f: nat, v: V, now: int)
    requires Valid(c, o) && Timed(c) && f < |c.all| && !c.all[f].Done() && !c.all[f].dropped
    ensures Timed(c.(entries := Store(c, o, f, v, now)))
  {
    var m := c.(entries := Store(c, o, f, v, now));
    assert FlightTimed(c, f);
    forall g | 0 <= g < |m.all| ensures FlightTimed(m, g) { assert FlightTimed(c, g); }
    forall k | k in m.entries && m.entries[k].from < |m.all| ensures EntryTimed(m, k) {
      if k != c.all[f].key { assert EntryTimed(c, k); }
    }
  }

  lemma ResolveTimes<V>(c: Cache<V>, o: Options, f: nat, v: V, now: int)
    requires Valid(c, o) && Timed(c)
    ensures Timed(Resolve(c, o, f, v, now))
  {
    if f < |c.all| && !c.all[f].Done() {
      if c.all[f].dropped {
        LandedTimes(c, f, Resolved(v));
      } else {
        StoreTimes(c, o, f, v, now);
        LandedTimes(c.(entries := Store(c, o, f, v, now)), f, Resolved(v));
      }
    }
  }

  lemma RejectTimes<V>(c: Cache<V>, f: nat)
    requires Timed(c)
    ensures Timed(Reject(c, f))
  {
    if f < |c.all| && !c.all[f].Done() { LandedTimes(c, f, Rejected); }
  }

  /** A mark that is no markStale leaves every horizon; drops only take flights and entries away. */
  lemma DropTimes<V>(c: Cache<V>, c': Cache<V>, m: Mark, o: Options)
    requires Valid(c, o) && Timed(c) && c'.log == c.log + [m] && !m.Staled? && |c'.all| == |c.all|
    requires forall f :: 0 <= f < |c.all| ==> c'.all[f] == c.all[f].(dropped := c'.all[f].dropped) && (c.all[f].dropped ==> c'.all[f].dropped)
    requires forall k :: k in c'.entries ==> k in c.entries && c'.entries[k] == c.entries[k]
    ensures Timed(c')
  {
    forall f | 0 <= f < |c'.all| ensures FlightTimed(c', f) {
      assert FlightOk(c, f) && FlightTimed(c, f);
      HorizonSnoc(c.log, m, c.all[f].key, c.all[f].began);
    }
    forall k | k in c'.entries && c'.entries[k].from < |c'.all| ensures EntryTimed(c', k) {
      assert EntryOk(c, k) && EntryTimed(c, k);
      HorizonSnoc(c.log, m, k, c.all[c.entries[k].from].began);
    }
  }

  lemma MarkStaleTimes<V>(c: Cache<V>, o: Options, key: Key, now: int, grace: int)
    requires Valid(c, o) && Timed(c)
    ensures Timed(MarkStale(c, key, now, grace))
  {
    var c', m := MarkStale(c, key, now, grace), Staled(key, now, grace);
    forall f | 0 <= f < |c'.all| ensures FlightTimed(c', f) {
      assert FlightOk(c, f) && FlightTimed(c, f);
      HorizonSnoc(c.log, m, c.all[f].key, c.all[f].began);
      if key in c.flights { assert SlotOk(c, key); }
    }
    forall k | k in c'.entries && c'.entries[k].from < |c'.all| ensures EntryTimed(c', k) {
      assert EntryOk(c, k) && EntryTimed(c, k);
      HorizonSnoc(c.log, m, k, c.all[c.entries[k].from].began);
    }
  }

  lemma StepTimes<V>(c: Cache<V>, o: Options, op: Op<V>)
    requires Valid(c, o) && Timed(c)
    ensures Timed(Step(c, o, op))
  {
    match op
    case OGet(key, now) => GetTimes(c, o, key, now);
    case OResolve(f, v, now) => ResolveTimes(c, o, f, v, now);
    case OReject(f) => RejectTimes(c, f);
    case OInvalidate(key) => InvalidateTimes(c, o, key);
    case OMarkStale(key, now, grace) => MarkStaleTimes(c, o, key, now, grace);
    case OClear => DropTimes(c, Clear(c), Cleared, o);
  }

  lemma InvalidateTimes<V>(c: Cache<V>, o: Options, key: Key)
    requires Valid(c, o) && Timed(c)
    ensures Timed(Invalidate(c, key))
  {
    InvalidateShape(c, key);
    DropTimes(c, Invalidate(c, key), Invalidated(key), o);
  }

  lemma InvalidateShape<V>(c: Cache<V>, key: Key)
    ensures var c' := Invalidate(c, key);
      && |c'.all| == |c.all| && c'.log == c.log + [Invalidated(key)]
      && (forall f :: 0 <= f < |c.all| ==> c'.all[f] == c.all[f].(dropped := c'.all[f].dropped) && (c.all[f].dropped ==> c'.all[f].dropped))
      && (forall k :: k in c'.entries ==> k in c.entries && c'.entries[k] == c.entries[k])
  {
  }

  lemma {:induction false} RunIsTimed<V>(o: Options, ops: seq<Op<V>>)
    ensures Timed(Run(o, ops))
    decreases |ops|
  {
    if ops != [] {
      RunIsTimed(o, ops[..|ops| - 1]);
      RunIsValid(o, ops[..|ops| - 1]);
      StepTimes(Run(o, ops[..|ops| - 1]), o, ops[|ops| - 1]);
    }
  }

  /** In every run a stored value is served exactly while its ttl lasts and no markStale since its compute began has run out. */
  lemma ServedExactly<V>(o: Options, ops: seq<Op<V>>, key: Key, now: int)
    ensures var c, a := Run(o, ops), Get(Run(o, ops), o, key, now).1;
      && (a.Hit? <==>
            && key in c.entries && c.entries[key].from < |c.all|
            && (o.ttl.Some? ==> now - c.entries[key].at < o.ttl.value)
            && (forall j :: c.all[c.entries[key].from].began <= j < |c.log| && c.log[j].Staled? && c.log[j].key == key
                  ==> now < c.log[j].at + c.log[j].grace))
      && (a.Hit? ==> a.value == c.entries[key].value && a.from == c.entries[key].from)
  {
    var c := Run(o, ops);
    RunIsValid(o, ops);
    RunIsTimed(o, ops);
    if key in c.entries {
      assert EntryOk(c, key) && EntryTimed(c, key);
      HorizonIsEarliest(c.log, key, c.all[c.entries[key].from].began, now);
    }
  }

  /** The operation takes the entry of `key`: a hard drop, a newer value for it, or a new key when the cache is full. */
  predicate Removes<V>(c: Cache<V>, o: Options, op: Op<V>, key: Key) {
    match op
    case OInvalidate(k) => k == key
    case OClear => true
    case OResolve(f, _, _) =>
      && f < |c.all| && !c.all[f].Done() && !c.all[f].dropped
      && (c.all[f].key == key || (c.all[f].key !in c.entries && |c.entries| >= o.maxEntries))
    case _ => false
  }

  /** Nothing else does. */
  lemma EntryStays<V>(c: Cache<V>, o: Options, op: Op<V>, key: Key)
    requires key in c.entries && !Removes(c, o, op, key)
    ensures var c' := Step(c, o, op);
      key in c'.entries && c'.entries[key] == c.entries[key].(staleAt := c'.entries[key].staleAt)
  {
  }

  /** A compute that resolves undropped is stored, and one that was dropped or rejected is not. */
  lemma ResolvedIsStored<V>(c: Cache<V>, o: Options, f: nat, v: V, now: int)
    requires f < |c.all| && !c.all[f].Done()
    ensures var c', key := Step(c, o, OResolve(f, v, now)), c.all[f].key;
      && (!c.all[f].dropped ==> key in c'.entries && c'.entries[key] == Entry(v, f, now, c.all[f].staleAt))
      && (c.all[f].dropped ==> c'.entries == c.entries)
    ensures Step(c, o, OReject(f)).entries == c.entries
  {
  }

  predicate NeverRemoves<V>(o: Options, ops: seq<Op<V>>, more: seq<Op<V>>, key: Key)
    decreases |more|
  {
    more != [] ==>
      && NeverRemoves(o, ops, more[..|more| - 1], key)
      && !Removes(Run(o, ops + more[..|more| - 1]), o, more[|more| - 1], key)
  }

  /** So it stays stored, whatever happens, until one of them comes. */
  lemma {:induction false} StaysStored<V>(o: Options, ops: seq<Op<V>>, more: seq<Op<V>>, key: Key)
    requires key in Run(o, ops).entries && NeverRemoves(o, ops, more, key)
    ensures var e, c' := Run(o, ops).entries[key], Run(o, ops + more);
      key in c'.entries && c'.entries[key].value == e.value && c'.entries[key].from == e.from && c'.entries[key].at == e.at
    decreases |more|
  {
    if more == [] {
      Units(ops);
    } else {
      var front, op := more[..|more| - 1], more[|more| - 1];
      StaysStored(o, ops, front, key);
      assert (ops + more)[..|ops + more| - 1] == ops + front;
      EntryStays(Run(o, ops + front), o, op, key);
    }
  }

  // ---------------------------------------------------------------- the object

  function DropAll<V>(all: seq<Flight<V>>, hit: set<nat>): seq<Flight<V>> {
    seq(|all|, i requires 0 <= i < |all| => if i in hit then all[i].(dropped := true) else all[i])
  }

  lemma DropOneMore<V>(all: seq<Flight<V>>, hit: set<nat>, f: nat)
    requires f < |all|
    ensures DropAll(all, hit)[f := DropAll(all, hit)[f].(dropped := true)] == DropAll(all, hit + {f})
  {
  }

  /** `hit` are the flights of the keys that are not left to do. */
  ghost predicate Reached(flights: map<Key, nat>, todo: set<Key>, hit: set<nat>) {
    && (forall k :: k in flights && k !in todo ==> flights[k] in hit)
    && hit <= flights.Values
  }

  lemma AllReached(flights: map<Key, nat>, hit: set<nat>)
    requires Reached(flights, {}, hit)
    ensures hit == flights.Values
  {
  }

  class AsyncKeyedCache<V> {
    const o: Options
    var entries: map<Key, Entry<V>>
    var flights: map<Key, nat>
    var all: seq<Flight<V>>       // every flight object ever made
    var log: seq<Mark>         // history, for the specification only

    ghost function View(): Cache<V>
      reads this
    {
      Cache(entries, flights, all, log)
    }

    ghost predicate Registered()
      reads this
    {
      forall key :: key in flights ==> flights[key] < |all|
    }

    constructor (o: Options)
      ensures View() == Fresh() && this.o == o && Registered()
    {
      this.o := o;
      entries, flights, all, log := map[], map[], [], [];
    }

    /** get() up to the start of compute(); the flight is registered before compute runs. */
    method Lookup(key: Key, now: int) returns (a: Answer<V>)
      requires Registered()
      modifies this
      ensures Registered() && (View(), a) == Get(old(View()), o, key, now)
    {
      if key in entries {
        var hit := entries[key];
        if (o.ttl == None || now - hit.at < o.ttl.value) && (hit.staleAt == None || now < hit.staleAt.value) {
          return Hit(hit.value, hit.from);
        }
      }
      if key in flights {
        return Joined(flights[key]);
      }
      a := Started(|all|);
      flights := flights[key := |all|];
      all := all + [Flight(key, |log|, false, None, Pending)];
      log := log + [Began(key)];
    }

    /** The finally block: a flight only unregisters itself. */
    method Unregister(f: nat, how: Outcome<V>)
      requires Registered() && f < |all|
      modifies this`all, this`flights
      ensures Registered() && View() == Landed(old(View()), f, how)
    {
      var key := all[f].key;
      if key in flights && flights[key] == f {
        flights := flights - {key};
      }
      all := all[f := all[f].(outcome := how)];
    }

    method ComputeResolved(f: nat, v: V, now: int)
      requires Registered()
      modifies this
      ensures Registered() && View() == Resolve(old(View()), o, f, v, now)
    {
      if f >= |all| || all[f].Done() {
        return;
      }
      var key := all[f].key;
      if !all[f].dropped {
        if key !in entries && |entries| >= o.maxEntries {
          entries := map[];
        }
        entries := entries[key := Entry(v, f, now, all[f].staleAt)];
      }
      Unregister(f, Resolved(v));
    }

    method ComputeRejected(f: nat)
      requires Registered()
      modifies this
      ensures Registered() && View() == Reject(old(View()), f)
    {
      if f < |all| && !all[f].Done() {
        Unregister(f, Rejected);
      }
    }

    method InvalidateKey(key: Key)
      requires Registered()
      modifies this
      ensures Registered() && View() == Invalidate(old(View()), key)
    {
      entries := entries - {key};
      if key in flights {
        all := all[flights[key] := all[flights[key]].(dropped := true)];
      }
      flights := flights - {key};
      log := log + [Invalidated(key)];
    }

    method MarkKeyStale(key: Key, now: int, grace: int)
      requires Registered()
      modifies this
      ensures Registered() && View() == MarkStale(old(View()), key, now, grace)
    {
      var horizon := now + grace;
      if key in entries {
        entries := entries[key := entries[key].(staleAt := MinHorizon(entries[key].staleAt, horizon))];
      }
      if key in flights {
        var f := flights[key];
        all := all[f := all[f].(staleAt := MinHorizon(all[f].staleAt, horizon))];
      }
      log := log + [Staled(key, now, grace)];
    }

    method ClearAll()
      requires Registered()
      modifies this
      ensures Registered() && View() == Clear(old(View()))
    {
      entries := map[];
      var todo := flights.Keys;
      ghost var hit: set<nat> := {};
      while todo != {}
        invariant todo <= flights.Keys && all == DropAll(old(all), hit) && Reached(flights, todo, hit)
        modifies this`all
        decreases |todo|
      {
        var key :| key in todo;
        var f := flights[key];
        DropOneMore(old(all), hit, f);
        all := all[f := all[f].(dropped := true)];
        hit, todo := hit + {f}, todo - {key};
      }
      AllReached(flights, hit);
      flights := map[];
      log := log + [Cleared];
    }
  }
}
