/** The control-frame token bucket of a viewer (src/host/attachHub.ts Viewer.takeControlToken). */
module TokenBucket {

  datatype Config = Config(burst: real, perSec: real) {
    predicate Sound() { 0.0 <= burst && 0.0 <= perSec }
  }

  datatype Bucket = Bucket(tokens: real, refilledAt: real)

  /** Tokens that accrue over `ms` milliseconds. */
  function Accrued(c: Config, ms: real): real { ms / 1000.0 * c.perSec }

  function Refilled(c: Config, b: Bucket, t: real): Bucket {
    var n := b.tokens + Accrued(c, t - b.refilledAt);
    Bucket(if n <= c.burst then n else c.burst, t)
  }

  function Take(c: Config, b: Bucket, t: real): (Bucket, bool) {
    var r := Refilled(c, b, t);
    if r.tokens < 1.0 then (r, false) else (r.(tokens := r.tokens - 1.0), true)
  }

  /** The bucket after metered frames at times `ts`, and how many of them it admitted. */
  function After(c: Config, b: Bucket, ts: seq<real>): Bucket
    decreases |ts|
  {
    if ts == [] then b else Take(c, After(c, b, ts[..|ts| - 1]), ts[|ts| - 1]).0
  }

  function Admitted(c: Config, b: Bucket, ts: seq<real>): nat
    decreases |ts|
  {
    if ts == [] then 0
    else Admitted(c, b, ts[..|ts| - 1]) + if Take(c, After(c, b, ts[..|ts| - 1]), ts[|ts| - 1]).1 then 1 else 0
  }

  /** A clock that does not go back. */
  predicate Nondecreasing(ts: seq<real>) {
    forall i, j :: 0 <= i < j < |ts| ==> ts[i] <= ts[j]
  }

  predicate InRange(c: Config, b: Bucket) { 0.0 <= b.tokens <= c.burst }

  lemma AccruedAdds(c: Config, x: real, y: real)
    ensures Accrued(c, x) + Accrued(c, y) == Accrued(c, x + y)
  {
    calc {
      Accrued(c, x) + Accrued(c, y);
      (x / 1000.0) * c.perSec + (y / 1000.0) * c.perSec;
      (x / 1000.0 + y / 1000.0) * c.perSec;
      { assert x / 1000.0 + y / 1000.0 == (x + y) / 1000.0; }
      Accrued(c, x + y);
    }
  }

  lemma AccruedGrows(c: Config, x: real, y: real)
    requires c.Sound() && x <= y
    ensures Accrued(c, x) <= Accrued(c, y) && (0.0 <= x ==> 0.0 <= Accrued(c, x))
  {
    assert x / 1000.0 <= y / 1000.0;
    assert (x / 1000.0) * c.perSec <= (y / 1000.0) * c.perSec;
    if 0.0 <= x { assert 0.0 * c.perSec <= (x / 1000.0) * c.perSec; }
  }

  /** Admitted frames and tokens left never exceed the tokens at the start and those accrued since. */
  lemma {:induction false} Potential(c: Config, b: Bucket, ts: seq<real>)
    requires c.Sound() && InRange(c, b) && Nondecreasing(ts) && (ts != [] ==> b.refilledAt <= ts[0])
    ensures var a := After(c, b, ts);
      && InRange(c, a) && a.refilledAt == (if ts == [] then b.refilledAt else ts[|ts| - 1])
      && Admitted(c, b, ts) as real + a.tokens <= b.tokens + Accrued(c, a.refilledAt - b.refilledAt)
    decreases |ts|
  {
    if ts == [] {
      assert Accrued(c, 0.0) == 0.0;
    } else {
      var front, t := ts[..|ts| - 1], ts[|ts| - 1];
      Potential(c, b, front);
      var m := After(c, b, front);
      AccruedGrows(c, 0.0, t - m.refilledAt);
      AccruedAdds(c, m.refilledAt - b.refilledAt, t - m.refilledAt);
      assert (m.refilledAt - b.refilledAt) + (t - m.refilledAt) == t - b.refilledAt;
    }
  }

  /** Starting from a bucket refilled at the first frame's time makes no difference. */
  lemma {:induction false} RefillFirst(c: Config, b: Bucket, ts: seq<real>)
    requires c.Sound() && InRange(c, b) && ts != []
    ensures Admitted(c, Refilled(c, b, ts[0]), ts) == Admitted(c, b, ts)
    ensures After(c, Refilled(c, b, ts[0]), ts) == After(c, b, ts)
    decreases |ts|
  {
    if |ts| == 1 {
      assert ts[..0] == [];
      var r := Refilled(c, b, ts[0]);
      assert Accrued(c, 0.0) == 0.0;
      assert Refilled(c, r, ts[0]) == r;
    } else {
      assert ts[..|ts| - 1][0] == ts[0];
      RefillFirst(c, b, ts[..|ts| - 1]);
    }
  }

  lemma {:induction false} AdmittedAppend(c: Config, b: Bucket, xs: seq<real>, ys: seq<real>)
    ensures After(c, b, xs + ys) == After(c, After(c, b, xs), ys)
    ensures Admitted(c, b, xs + ys) == Admitted(c, b, xs) + Admitted(c, After(c, b, xs), ys)
    decreases |ys|
  {
    if ys == [] {
      assert xs + ys == xs;
    } else {
      assert (xs + ys)[..|xs + ys| - 1] == xs + ys[..|ys| - 1];
      AdmittedAppend(c, b, xs, ys[..|ys| - 1]);
    }
  }

  lemma Window(c: Config, b: Bucket, ts: seq<real>)
    requires c.Sound() && InRange(c, b) && ts != [] && Nondecreasing(ts) && b.refilledAt <= ts[0]
    ensures Admitted(c, b, ts) as real <= c.burst + Accrued(c, ts[|ts| - 1] - ts[0])
  {
    RefillFirst(c, b, ts);
    AccruedGrows(c, 0.0, ts[0] - b.refilledAt);
    var r := Refilled(c, b, ts[0]);
    Potential(c, r, ts);
  }

  /** The frames i..j-1 find the bucket that the earlier ones left ... */
  lemma AdmittedBetween(c: Config, b: Bucket, ts: seq<real>, i: nat, j: nat)
    requires i <= j <= |ts|
    ensures Admitted(c, b, ts[..j]) == Admitted(c, b, ts[..i]) + Admitted(c, After(c, b, ts[..i]), ts[i..j])
  {
    assert ts[..j] == ts[..i] + ts[i..j];
    AdmittedAppend(c, b, ts[..i], ts[i..j]);
  }

  /** ... and it is in order. */
  lemma BucketAt(c: Config, b: Bucket, ts: seq<real>, i: nat)
    requires c.Sound() && InRange(c, b) && Nondecreasing(ts) && i < |ts| && b.refilledAt <= ts[0]
    ensures InRange(c, After(c, b, ts[..i])) && After(c, b, ts[..i]).refilledAt <= ts[i]
  {
    Potential(c, b, ts[..i]);
  }

  lemma WindowWithin(c: Config, b: Bucket, ts: seq<real>, from: real, to: real)
    requires c.Sound() && InRange(c, b) && ts != [] && Nondecreasing(ts) && b.refilledAt <= ts[0]
    requires from <= ts[0] && ts[|ts| - 1] <= to
    ensures Admitted(c, b, ts) as real <= c.burst + Accrued(c, to - from)
  {
    var span := ts[|ts| - 1] - ts[0];
    assert Admitted(c, b, ts) as real <= c.burst + Accrued(c, span) by { Window(c, b, ts); }
    assert Accrued(c, span) <= Accrued(c, to - from) by { AccruedGrows(c, span, to - from); }
  }

  /**
   * Over every sequence of metered frames: those admitted among the frames i..j-1, all received
   * between the instants `from` and `to`, number at most the burst plus what accrues in between.
   */
  lemma RateBound(c: Config, start: real, ts: seq<real>, i: nat, j: nat, from: real, to: real)
    requires c.Sound() && Nondecreasing(ts) && (ts != [] ==> start <= ts[0])
    requires i < j <= |ts| && from <= ts[i] && ts[j - 1] <= to
    ensures Admitted(c, Bucket(c.burst, start), ts[..i]) <= Admitted(c, Bucket(c.burst, start), ts[..j])
    ensures (Admitted(c, Bucket(c.burst, start), ts[..j]) - Admitted(c, Bucket(c.burst, start), ts[..i])) as real
         <= c.burst + Accrued(c, to - from)
  {
    var b := Bucket(c.burst, start);
    AdmittedBetween(c, b, ts, i, j);
    BucketAt(c, b, ts, i);
    WindowWithin(c, After(c, b, ts[..i]), ts[i..j], from, to);
  }

  /** Tokens accrue at the configured rate per second. */
  lemma AccruedIsTheRate(c: Config, ms: real)
    ensures Accrued(c, ms) == c.perSec * ms / 1000.0
  {
  }

  /** A frame is admitted exactly if one token is left or has accrued since the last frame, and the burst allows one. */
  lemma AdmitsExactly(c: Config, b: Bucket, t: real)
    ensures var (b', ok) := Take(c, b, t);
      (ok <==> 1.0 <= c.burst && 1.0 <= b.tokens + Accrued(c, t - b.refilledAt)) && b'.refilledAt == t
  {
  }

  lemma BucketAfter(c: Config, b: Bucket, ts: seq<real>)
    requires c.Sound() && InRange(c, b) && Nondecreasing(ts) && ts != [] && b.refilledAt <= ts[0]
    ensures 0.0 <= After(c, b, ts).tokens && After(c, b, ts).refilledAt == ts[|ts| - 1]
  {
    Potential(c, b, ts);
  }

  /** However greedy a viewer was before: after a pause that is worth one token its next frame is admitted. */
  lemma PauseIsRewarded(c: Config, start: real, ts: seq<real>, t: real)
    requires c.Sound() && 1.0 <= c.burst && Nondecreasing(ts) && ts != [] && start <= ts[0]
    requires 1.0 <= Accrued(c, t - ts[|ts| - 1])
    ensures Take(c, After(c, Bucket(c.burst, start), ts), t).1
  {
    BucketAfter(c, Bucket(c.burst, start), ts);
    AdmitsExactly(c, After(c, Bucket(c.burst, start), ts), t);
  }

  /** No refill of the run runs into the burst. */
  predicate NeverFull(c: Config, b: Bucket, ts: seq<real>)
    decreases |ts|
  {
    ts != [] ==>
      && NeverFull(c, b, ts[..|ts| - 1])
      && var m := After(c, b, ts[..|ts| - 1]);
      m.tokens + Accrued(c, ts[|ts| - 1] - m.refilledAt) <= c.burst
  }

  /** Then nothing is lost: what was admitted and what is left are the tokens at the start and all that accrued. */
  lemma {:induction false} TokensConserved(c: Config, b: Bucket, ts: seq<real>)
    requires NeverFull(c, b, ts)
    ensures var a := After(c, b, ts);
      Admitted(c, b, ts) as real + a.tokens == b.tokens + Accrued(c, a.refilledAt - b.refilledAt)
    decreases |ts|
  {
    if ts == [] {
      assert Accrued(c, 0.0) == 0.0;
    } else {
      var front, t := ts[..|ts| - 1], ts[|ts| - 1];
      TokensConserved(c, b, front);
      var m := After(c, b, front);
      AccruedAdds(c, m.refilledAt - b.refilledAt, t - m.refilledAt);
      assert (m.refilledAt - b.refilledAt) + (t - m.refilledAt) == t - b.refilledAt;
    }
  }

  lemma TokensInRange(c: Config, start: real, ts: seq<real>)
    requires c.Sound() && Nondecreasing(ts) && (ts != [] ==> start <= ts[0])
    ensures InRange(c, After(c, Bucket(c.burst, start), ts))
  {
    Potential(c, Bucket(c.burst, start), ts);
  }

  /** The fields of the viewer. */
  class ControlBucket {
    const c: Config
    var tokens: real
    var refilledAt: real

    ghost function View(): Bucket
      reads this
    {
      Bucket(tokens, refilledAt)
    }

    constructor (c: Config, now: real)
      requires c.Sound()
      ensures View() == Bucket(c.burst, now) && this.c == c && InRange(c, View())
    {
      this.c := c;
      tokens, refilledAt := c.burst, now;
    }

    method TakeControlToken(t: real) returns (ok: bool)
      modifies this
      ensures (View(), ok) == Take(c, old(View()), t)
    {
      tokens := tokens + Accrued(c, t - refilledAt);
      if tokens > c.burst {
        tokens := c.burst;
      }
      refilledAt := t;
      if tokens < 1.0 {
        return false;
      }
      tokens := tokens - 1.0;
      ok := true;
    }
  }
}
