/**
 * The lease row and the three transactions that may change it
 * (src/host/lease.ts memoryLeaseStore, src/host/pgLease.ts postgresLeaseStore).
 */
module LeaseStore {
  import opened Prelude

  /** A process identity; `LeaseStore` demands that it is unique per process. */
  type Pid = nat

  datatype Row =
    | NoRow
    | Row(holder: Option<Pid>, epoch: nat, expires: real)
  {
    predicate HeldBy(p: Pid) { Row? && holder == Some(p) }
    predicate Owned(p: Pid, e: nat) { HeldBy(p) && epoch == e }
  }

  /** May `p` take the row at DB time `now`? */
  predicate Takeable(row: Row, p: Pid, now: real) {
    row.NoRow? || row.holder == None || row.holder == Some(p) || row.expires <= now
  }

  function EpochOf(row: Row): nat { if row.NoRow? then 0 else row.epoch }

  function TryAcquire(row: Row, p: Pid, now: real, ttl: real): (Row, Option<nat>) {
    if Takeable(row, p, now)
    then (Row(Some(p), EpochOf(row) + 1, now + ttl), Some(EpochOf(row) + 1))
    else (row, None)
  }

  function Renew(row: Row, p: Pid, e: nat, now: real, ttl: real): (Row, bool) {
    if row.Owned(p, e) then (row.(expires := now + ttl), true) else (row, false)
  }

  function Release(row: Row, p: Pid, e: nat, now: real): Row {
    if row.Owned(p, e) then row.(holder := None, expires := now) else row
  }

  /** The fence's check on the row, under FOR KEY SHARE: ours, of our epoch, and still live. */
  predicate FencePasses(row: Row, p: Pid, mine: nat, now: real) {
    row.Owned(p, mine) && row.expires > now
  }

  /** leaseFence: every refusal throws, the first one also reports the loss. */
  class LeaseFence {
    const holder: Pid
    var reported: bool
    var onLostCalls: nat

    ghost predicate Valid()
      reads this
    {
      onLostCalls == if reported then 1 else 0
    }

    constructor (p: Pid)
      ensures Valid() && holder == p && !reported
    {
      holder, reported, onLostCalls := p, false, 0;
    }

    /** `mine` is the epoch this process believes it holds, None when it holds none. */
    method AfterBeginWrite(mine: Option<nat>, row: Row, now: real) returns (pass: bool)
      requires Valid()
      modifies this
      ensures Valid()
      ensures pass <==> mine.Some? && FencePasses(row, holder, mine.value, now)
      ensures pass <==> row.Row? && row.holder == Some(holder) && mine == Some(row.epoch) && now < row.expires
      ensures reported == (old(reported) || !pass)
    {
      pass := mine.Some? && row.Row? && row.holder == Some(holder) && row.epoch == mine.value && row.expires > now;
      if !pass && !reported {
        reported, onLostCalls := true, onLostCalls + 1;
      }
    }
  }

  // ----- the process-local store keeps a row from the start and zeroes the expiry on release

  /** memoryLeaseStore: the closure's `row` variable and its three operations. */
  class MemoryStore {
    var holder: Option<Pid>
    var epoch: nat
    var expires: real

    ghost function View(): Row
      reads this
    {
      Row.Row(holder, epoch, expires)
    }

    constructor ()
      ensures View() == Row.Row(None, 0, 0.0)
    {
      holder, epoch, expires := None, 0, 0.0;
    }

    method Acquire(p: Pid, now: real, ttl: real) returns (r: Option<nat>)
      modifies this
      ensures Same(TryAcquire(old(View()), p, now, ttl).0, View())
      ensures r == TryAcquire(old(View()), p, now, ttl).1
      ensures r.None? <==> old(holder).Some? && old(holder).value != p && now < old(expires)
      ensures r.Some? ==> holder == Some(p) && r.value == epoch == old(epoch) + 1 && expires == now + ttl
    {
      if holder != None && holder != Some(p) && expires > now {
        return None;
      }
      holder, epoch, expires := Some(p), epoch + 1, now + ttl;
      r := Some(epoch);
    }

    method Extend(p: Pid, e: nat, now: real, ttl: real) returns (ok: bool)
      modifies this`expires
      ensures Same(Renew(old(View()), p, e, now, ttl).0, View())
      ensures ok == Renew(old(View()), p, e, now, ttl).1
      ensures ok <==> holder == Some(p) && epoch == e
      ensures expires == if ok then now + ttl else old(expires)
    {
      if holder != Some(p) || epoch != e {
        return false;
      }
      expires := now + ttl;
      ok := true;
    }

    method Free(p: Pid, e: nat, now: real)
      modifies this
      ensures Same(Release(old(View()), p, e, now), View())
      ensures epoch == old(epoch) && holder == if old(holder) == Some(p) && epoch == e then None else old(holder)
    {
      if holder == Some(p) && epoch == e {
        holder, expires := None, 0.0;
      }
    }
  }

  /** A grant is refused only while another process's lease runs; it counts the epoch up and runs for `ttl`. */
  lemma GrantRule(row: Row, p: Pid, now: real, ttl: real)
    ensures var (row', r) := TryAcquire(row, p, now, ttl);
      && (r.None? <==> row.Row? && row.holder.Some? && row.holder.value != p && now < row.expires)
      && (r.None? ==> row' == row)
      && (r.Some? ==> row' == Row.Row(Some(p), r.value, now + ttl) && r.value == if row.NoRow? then 1 else row.epoch + 1)
  {
  }

  /** The owner's renew always succeeds, even past expiry, and its release always frees; nobody else's does anything. */
  lemma OwnerRule(row: Row, p: Pid, e: nat, now: real, ttl: real)
    ensures var owner := row.Row? && row.holder == Some(p) && row.epoch == e;
      && Renew(row, p, e, now, ttl) == (if owner then (Row.Row(Some(p), e, now + ttl), true) else (row, false))
      && Release(row, p, e, now) == (if owner then Row.Row(None, e, now) else row)
  {
  }

  /** Rows that no caller of the store can tell apart: the expiry of a free row is never read. */
  predicate Same(a: Row, b: Row) {
    && EpochOf(a) == EpochOf(b)
    && (if a.NoRow? || a.holder == None then b.NoRow? || b.holder == None else a == b)
  }

  datatype Op =
    | OpAcquire(p: Pid, now: real, ttl: real)
    | OpRenew(p: Pid, e: nat, now: real, ttl: real)
    | OpRelease(p: Pid, e: nat, now: real)

  datatype Reply = Epoch(e: Option<nat>) | Owned(yes: bool) | Done

  function Apply(row: Row, op: Op): (Row, Reply) {
    match op
    case OpAcquire(p, now, ttl) => var r := TryAcquire(row, p, now, ttl); (r.0, Epoch(r.1))
    case OpRenew(p, e, now, ttl) => var r := Renew(row, p, e, now, ttl); (r.0, Owned(r.1))
    case OpRelease(p, e, now) => (Release(row, p, e, now), Done)
  }

  function Replies(row: Row, ops: seq<Op>): seq<Reply>
    decreases ops
  {
    if ops == [] then [] else [Apply(row, ops[0]).1] + Replies(Apply(row, ops[0]).0, ops[1..])
  }

  /** The two stores are interchangeable: equal answers over every history of calls. */
  lemma {:induction false} StoresAgree(a: Row, b: Row, ops: seq<Op>)
    requires Same(a, b)
    ensures Replies(a, ops) == Replies(b, ops)
    decreases ops
  {
    if ops != [] {
      assert Same(Apply(a, ops[0]).0, Apply(b, ops[0]).0);
      StoresAgree(Apply(a, ops[0]).0, Apply(b, ops[0]).0, ops[1..]);
    }
  }

  /** One call on the in-memory store. */
  method Call(m: MemoryStore, op: Op) returns (r: Reply)
    modifies m
    ensures Same(Apply(old(m.View()), op).0, m.View()) && r == Apply(old(m.View()), op).1
  {
    match op {
      case OpAcquire(p, now, ttl) =>
        var e := m.Acquire(p, now, ttl);
        r := Epoch(e);
      case OpRenew(p, e, now, ttl) =>
        var ok := m.Extend(p, e, now, ttl);
        r := Reply.Owned(ok);
      case OpRelease(p, e, now) =>
        m.Free(p, e, now);
        r := Done;
    }
  }

  /** A new in-memory store answers every sequence of calls as the database does from an empty table. */
  method RunMemory(ops: seq<Op>) returns (replies: seq<Reply>)
    ensures replies == Replies(NoRow, ops)
  {
    var m := new MemoryStore();
    ghost var start := m.View();
    replies := [];
    assert ops[0..] == ops;
    var i := 0;
    while i < |ops|
      invariant 0 <= i <= |ops| && fresh(m)
      invariant replies + Replies(m.View(), ops[i..]) == Replies(start, ops)
    {
      ghost var row := m.View();
      var r := Call(m, ops[i]);
      CallAgrees(row, m.View(), ops, i, replies);
      replies := replies + [r];
      i := i + 1;
    }
    assert ops[i..] == [];
    Units(replies);
    StoresAgree(start, NoRow, ops);
  }

  lemma CallAgrees(row: Row, row': Row, ops: seq<Op>, i: nat, replies: seq<Reply>)
    requires i < |ops| && Same(Apply(row, ops[i]).0, row')
    ensures replies + Replies(row, ops[i..]) == replies + [Apply(row, ops[i]).1] + Replies(row', ops[i + 1..])
  {
    RepliesStep(row, ops, i);
    StoresAgree(Apply(row, ops[i]).0, row', ops[i + 1..]);
    Assoc(replies, [Apply(row, ops[i]).1], Replies(row', ops[i + 1..]));
  }

  lemma RepliesStep(row: Row, ops: seq<Op>, i: nat)
    requires i < |ops|
    ensures Replies(row, ops[i..]) == [Apply(row, ops[i]).1] + Replies(Apply(row, ops[i]).0, ops[i + 1..])
  {
    assert ops[i..][1..] == ops[i + 1..];
  }
}
