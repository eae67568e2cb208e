/**
 * Who may CLOSE a session, and the pruning of owners against a racing listing
 * (src/host/attachHub.ts setOwner, ownerMark, pruneOwners; src/host/events.ts).
 */
module Owners {
  import opened Prelude

  type Id = string

  /** One life of a session id in the broker; the ids may be reused, lives are not. */
  type Life = nat

  /** A create answered by the broker but not yet seen by the host. */
  datatype Reply = Reply(id: Id, life: Life, key: string)

  /** A poll or prune in progress: the mark it took, and the listing once it has one. */
  datatype Sweep = Sweep(mark: nat, live: Option<set<Id>>, born: nat, done: bool)

  datatype Hub = Hub(
    // broker
    alive: map<Id, Life>,
    lives: nat,
    // host
    owners: map<Id, string>,
    ownerSeq: map<Id, nat>,
    seq_: nat,
    replies: seq<Reply>,
    sweeps: seq<Sweep>,
    ownedLife: map<Id, Life>)      // the life each owner entry was recorded for

  const Fresh: Hub := Hub(map[], 0, map[], map[], 0, [], [], map[])

  // ---------------------------------------------------------------- the operations

  function SetOwner(h: Hub, id: Id, key: string, life: Life): Hub {
    h.(owners := h.owners[id := key], ownerSeq := h.ownerSeq[id := h.seq_ + 1], seq_ := h.seq_ + 1,
       ownedLife := h.ownedLife[id := life])
  }

  function DropOwner(h: Hub, id: Id): Hub {
    h.(owners := h.owners - {id}, ownerSeq := h.ownerSeq - {id}, ownedLife := h.ownedLife - {id})
  }

  /** The ids pruneOwners(live, mark) drops. */
  function Pruned(h: Hub, live: set<Id>, mark: nat): set<Id> {
    set id | id in h.ownerSeq && h.ownerSeq[id] <= mark && id !in live
  }

  function Less(h: Hub, gone: set<Id>): Hub {
    h.(owners := h.owners - gone, ownerSeq := h.ownerSeq - gone, ownedLife := h.ownedLife - gone)
  }

  function PruneOwners(h: Hub, live: set<Id>, mark: nat): Hub { Less(h, Pruned(h, live, mark)) }

  datatype Event =
    | BrokerCreates(id: Id, key: string)   // succeeds only for an id that is not alive
    | HostSeesCreated(i: nat)              // setOwner, after the create succeeded
    | BrokerExits(id: Id)
    | Dropped(id: Id)                      // dropOwner: the tap saw the exit, or CLOSE
    | SweepMarks                           // ownerMark()
    | SweepLists(i: nat)                   // the broker answers list()
    | SweepPrunes(i: nat)                  // pruneOwners(alive ids of the listing, mark)

  function Step(h: Hub, e: Event): Hub {
    match e
    case BrokerCreates(id, key) =>
      if id in h.alive then h
      else h.(alive := h.alive[id := h.lives], lives := h.lives + 1, replies := h.replies + [Reply(id, h.lives, key)])
    case HostSeesCreated(i) =>
      if i >= |h.replies| then h
      else SetOwner(h.(replies := h.replies[..i] + h.replies[i + 1..]), h.replies[i].id, h.replies[i].key, h.replies[i].life)
    case BrokerExits(id) => h.(alive := h.alive - {id})
    case Dropped(id) => DropOwner(h, id)
    case SweepMarks => h.(sweeps := h.sweeps + [Sweep(h.seq_, None, 0, false)])
    case SweepLists(i) =>
      if i >= |h.sweeps| || h.sweeps[i].live.Some? then h
      else h.(sweeps := h.sweeps[i := h.sweeps[i].(live := Some(h.alive.Keys), born := h.lives)])
    case SweepPrunes(i) =>
      if i >= |h.sweeps| || h.sweeps[i].live == None || h.sweeps[i].done then h
      else PruneOwners(h.(sweeps := h.sweeps[i := h.sweeps[i].(done := true)]), h.sweeps[i].live.value, h.sweeps[i].mark)
  }

  function Run(es: seq<Event>): Hub
    decreases |es|
  {
    if es == [] then Fresh else Step(Run(es[..|es| - 1]), es[|es| - 1])
  }

  // ---------------------------------------------------------------- a live session keeps its owner

  predicate Alive(h: Hub, id: Id, life: Life) { id in h.alive && h.alive[id] == life }

  /**
   * Marks precede their listings: an owner entry no newer than a sweep's mark was recorded for a
   * life that had begun before the listing, so if the listing does not show it, that life is over.
   */
  predicate SweepOk(h: Hub, w: Sweep) {
    && w.mark <= h.seq_
    && (w.live.Some? ==>
          w.born <= h.lives && forall id :: id in h.ownerSeq && h.ownerSeq[id] <= w.mark ==> Covered(h, w, id))
  }

  predicate Covered(h: Hub, w: Sweep, id: Id)
    requires w.live.Some?
  {
    id in h.ownedLife && h.ownedLife[id] < w.born && (id !in w.live.value ==> !Alive(h, id, h.ownedLife[id]))
  }

  ghost predicate Sound(h: Hub) {
    && h.owners.Keys == h.ownerSeq.Keys == h.ownedLife.Keys
    && (forall id :: id in h.alive ==> h.alive[id] < h.lives)
    && (forall i :: 0 <= i < |h.replies| ==> h.replies[i].life < h.lives)
    && (forall id :: id in h.ownerSeq ==> h.ownerSeq[id] <= h.seq_ && h.ownedLife[id] < h.lives)
  }

  ghost predicate Valid(h: Hub) {
    Sound(h) && forall i :: 0 <= i < |h.sweeps| ==> SweepOk(h, h.sweeps[i])
  }

  /** Whatever happens to the broker and the owners, a sweep in progress stays sound. */
  lemma StepKeepsSweep(h: Hub, e: Event, w: Sweep)
    requires Sound(h) && SweepOk(h, w)
    ensures SweepOk(Step(h, e), w)
  {
    var h' := Step(h, e);
    OldEntriesStay(h, e, w.mark);
    if w.live.Some? {
      forall id | id in h'.ownerSeq && h'.ownerSeq[id] <= w.mark
        ensures Covered(h', w, id)
      {
        assert Covered(h, w, id);
        if !Alive(h, id, h.ownedLife[id]) { NoSecondLife(h, e, id, h.ownedLife[id]); }
      }
    }
  }

  /** An entry no newer than a past mark has been there since. */
  lemma OldEntriesStay(h: Hub, e: Event, mark: nat)
    requires Sound(h) && mark <= h.seq_
    ensures var h' := Step(h, e);
      && h.seq_ <= h'.seq_ && h.lives <= h'.lives
      && forall id :: id in h'.ownerSeq && h'.ownerSeq[id] <= mark ==>
           && id in h.ownerSeq && id in h'.ownedLife
           && h'.ownerSeq[id] == h.ownerSeq[id] && h'.ownedLife[id] == h.ownedLife[id]
  {
    match e
    case HostSeesCreated(i) =>
    case SweepPrunes(i) =>
    case _ =>
  }

  /** A life that is over does not begin again. */
  lemma NoSecondLife(h: Hub, e: Event, id: Id, life: Life)
    requires Sound(h) && life < h.lives && !Alive(h, id, life)
    ensures !Alive(Step(h, e), id, life)
  {
  }

  /** At the moment of a listing, what it does not show is not alive. */
  lemma ListingIsSound(h: Hub, i: nat)
    requires Sound(h) && i < |h.sweeps| && h.sweeps[i].live == None && SweepOk(h, h.sweeps[i])
    ensures SweepOk(Step(h, SweepLists(i)), Step(h, SweepLists(i)).sweeps[i])
  {
    var h' := Step(h, SweepLists(i));
    assert SweepOk(h, h.sweeps[i]);
    forall id | id in h'.ownerSeq && h'.ownerSeq[id] <= h'.sweeps[i].mark
      ensures Covered(h', h'.sweeps[i], id)
    {
    }
  }

  lemma StepKeepsSound(h: Hub, e: Event)
    requires Sound(h)
    ensures Sound(Step(h, e))
  {
    match e
    case HostSeesCreated(i) =>
    case SweepPrunes(i) =>
    case _ =>
  }

  /** A sweep in progress stays sound whatever happens, to itself or to others. */
  lemma SweepStays(h: Hub, e: Event, i: nat)
    requires Sound(h) && i < |h.sweeps| && SweepOk(h, h.sweeps[i])
    ensures i < |Step(h, e).sweeps| && SweepOk(Step(h, e), Step(h, e).sweeps[i])
  {
    var h' := Step(h, e);
    if e == SweepLists(i) && h.sweeps[i].live == None {
      ListingIsSound(h, i);
    } else {
      StepKeepsSweep(h, e, h.sweeps[i]);
      assert h'.sweeps[i] == h.sweeps[i].(done := h'.sweeps[i].done);
    }
  }

  lemma StepKeepsValid(h: Hub, e: Event)
    requires Valid(h)
    ensures Valid(Step(h, e))
  {
    var h' := Step(h, e);
    StepKeepsSound(h, e);
    forall i | 0 <= i < |h'.sweeps|
      ensures SweepOk(h', h'.sweeps[i])
    {
      if i < |h.sweeps| { SweepStays(h, e, i); }
    }
  }

  lemma {:induction false} RunIsValid(es: seq<Event>)
    ensures Valid(Run(es))
    decreases |es|
  {
    if es != [] {
      RunIsValid(es[..|es| - 1]);
      StepKeepsValid(Run(es[..|es| - 1]), es[|es| - 1]);
    }
  }

  /**
   * In every interleaving of creates, exits, replies and any number of sweeps, an owner removed
   * by a prune was recorded for a life that is over; an owner of a running session stays.
   */
  lemma PruneSparesTheLiving(es: seq<Event>, i: nat, id: Id)
    requires var h := Run(es); id in h.owners && id !in Step(h, SweepPrunes(i)).owners
    ensures var h := Run(es);
      && i < |h.sweeps| && h.sweeps[i].live.Some? && id !in h.sweeps[i].live.value
      && id in h.ownedLife && !Alive(h, id, h.ownedLife[id])
  {
    RunIsValid(es);
    assert SweepOk(Run(es), Run(es).sweeps[i]);
  }

  /** With `todo` still to look at, exactly the due ones among the others are dropped. */
  ghost predicate Halfway(h: Hub, live: set<Id>, mark: nat, todo: set<Id>, dropped: set<Id>) {
    todo <= h.ownerSeq.Keys && dropped == Pruned(h, live, mark) - todo
  }

  lemma OneOff(h: Hub, live: set<Id>, mark: nat, todo: set<Id>, dropped: set<Id>, id: Id)
    requires Halfway(h, live, mark, todo, dropped) && id in todo
    ensures id in Less(h, dropped).ownerSeq && Less(h, dropped).ownerSeq[id] == h.ownerSeq[id]
    ensures DropOwner(Less(h, dropped), id) == Less(h, dropped + {id})
    ensures if h.ownerSeq[id] <= mark && id !in live then Halfway(h, live, mark, todo - {id}, dropped + {id})
            else Halfway(h, live, mark, todo - {id}, dropped)
  {
    DropOneMore(h, dropped, id);
    assert id in Pruned(h, live, mark) <==> h.ownerSeq[id] <= mark && id !in live;
  }

  lemma AllOff(h: Hub, live: set<Id>, mark: nat, dropped: set<Id>)
    requires Halfway(h, live, mark, {}, dropped)
    ensures Less(h, dropped) == PruneOwners(h, live, mark)
  {
    assert dropped == Pruned(h, live, mark);
  }

  // ---------------------------------------------------------------- whose entry it is

  /** The create that began a life: its id and its creator's key. */
  function Creator(es: seq<Event>, life: Life): Option<(Id, string)>
    decreases |es|
  {
    if es == [] then None
    else
      var front, e := es[..|es| - 1], es[|es| - 1];
      if e.BrokerCreates? && e.id !in Run(front).alive && Run(front).lives == life then Some((e.id, e.key)) else Creator(front, life)
  }

  /** Owner entries and answers under way name the creator of their life. */
  ghost predicate Attributed(h: Hub, es: seq<Event>) {
    && (forall id :: id in h.owners ==> id in h.ownedLife && Creator(es, h.ownedLife[id]) == Some((id, h.owners[id])))
    && (forall i :: 0 <= i < |h.replies| ==> Creator(es, h.replies[i].life) == Some((h.replies[i].id, h.replies[i].key)))
  }

  lemma CreatorStays(es: seq<Event>, life: Life)
    requires es != [] && life < Run(es[..|es| - 1]).lives
    ensures Creator(es, life) == Creator(es[..|es| - 1], life)
  {
  }

  lemma StepAttributes(h: Hub, e: Event, es: seq<Event>, front: seq<Event>)
    requires es != [] && front == es[..|es| - 1] && e == es[|es| - 1] && h == Run(front) && Sound(h) && Attributed(h, front)
    ensures Attributed(Step(h, e), es)
  {
    var h' := Step(h, e);
    forall id | id in h'.owners ensures id in h'.ownedLife && Creator(es, h'.ownedLife[id]) == Some((id, h'.owners[id])) {
      if id in h.owners && h'.owners[id] == h.owners[id] && h'.ownedLife[id] == h.ownedLife[id] {
        CreatorStays(es, h.ownedLife[id]);
      } else {
        assert e.HostSeesCreated? && h.replies[e.i].id == id;
        CreatorStays(es, h.replies[e.i].life);
      }
    }
    forall i | 0 <= i < |h'.replies|
      ensures Creator(es, h'.replies[i].life) == Some((h'.replies[i].id, h'.replies[i].key))
    {
      ReplyFrom(h, e, i);
      if h'.replies[i] in h.replies {
        var j :| 0 <= j < |h.replies| && h.replies[j] == h'.replies[i];
        CreatorStays(es, h.replies[j].life);
      }
    }
  }

  lemma ReplyFrom(h: Hub, e: Event, i: nat)
    requires i < |Step(h, e).replies|
    ensures Step(h, e).replies[i] in h.replies
      || (e.BrokerCreates? && e.id !in h.alive && Step(h, e).replies[i] == Reply(e.id, h.lives, e.key))
  {
  }

  /** In every run, the owner on record for a session is the one whose create began the recorded life of it. */
  lemma {:induction false} OwnersAreCreators(es: seq<Event>)
    ensures Attributed(Run(es), es)
    decreases |es|
  {
    if es != [] {
      var front := es[..|es| - 1];
      OwnersAreCreators(front);
      RunIsValid(front);
      StepAttributes(Run(front), es[|es| - 1], es, front);
    }
  }

  // ---------------------------------------------------------------- what each operation leaves

  /** A create that the host hears of is on record, newest of all. */
  lemma CreatedExactly(h: Hub, i: nat)
    requires i < |h.replies|
    ensures var r, h' := h.replies[i], Step(h, HostSeesCreated(i));
      && h'.owners == h.owners[r.id := r.key] && h'.seq_ == h.seq_ + 1 && h'.ownerSeq == h.ownerSeq[r.id := h.seq_ + 1]
      && h'.ownedLife == h.ownedLife[r.id := r.life]
  {
  }

  /** A prune removes exactly the entries up to its mark that its listing does not show. */
  lemma PruneExactly(h: Hub, i: nat, id: Id)
    requires i < |h.sweeps| && h.sweeps[i].live.Some? && !h.sweeps[i].done && h.owners.Keys == h.ownerSeq.Keys
    ensures var h' := Step(h, SweepPrunes(i));
      && (id in h'.owners <==> id in h.owners && (h.ownerSeq[id] > h.sweeps[i].mark || id in h.sweeps[i].live.value))
      && (id in h'.owners ==> h'.owners[id] == h.owners[id])
  {
  }

  /** A sweep's mark is the latest entry at its start, and its listing what is alive when the broker answers. */
  lemma SweepExactly(h: Hub, i: nat)
    ensures Step(h, SweepMarks).sweeps == h.sweeps + [Sweep(h.seq_, None, 0, false)]
    ensures i < |h.sweeps| && h.sweeps[i].live == None ==>
      forall id :: id in Step(h, SweepLists(i)).sweeps[i].live.value <==> id in h.alive
  {
  }

  lemma DropNone(h: Hub)
    ensures Less(h, {}) == h
  {
  }

  lemma DropOneMore(h: Hub, dropped: set<Id>, id: Id)
    ensures DropOwner(Less(h, dropped), id) == Less(h, dropped + {id})
  {
    assert (h.owners - dropped) - {id} == h.owners - (dropped + {id});
    assert (h.ownerSeq - dropped) - {id} == h.ownerSeq - (dropped + {id});
    assert (h.ownedLife - dropped) - {id} == h.ownedLife - (dropped + {id});
  }

  /** The three owner fields of the hub. */
  class OwnerTable {
    var owners: map<Id, string>
    var ownerSeq: map<Id, nat>
    var seq_: nat

    ghost predicate Same(h: Hub)
      reads this
    {
      owners == h.owners && ownerSeq == h.ownerSeq && seq_ == h.seq_
    }

    constructor ()
      ensures Same(Fresh)
    {
      owners, ownerSeq, seq_ := map[], map[], 0;
    }

    method Set(id: Id, key: string, ghost h: Hub, ghost life: Life)
      requires Same(h)
      modifies this
      ensures Same(SetOwner(h, id, key, life))
    {
      owners := owners[id := key];
      seq_ := seq_ + 1;
      ownerSeq := ownerSeq[id := seq_];
    }

    method Drop(id: Id, ghost h: Hub)
      requires Same(h)
      modifies this
      ensures Same(DropOwner(h, id))
    {
      owners := owners - {id};
      ownerSeq := ownerSeq - {id};
    }

    method Prune(live: set<Id>, mark: nat, ghost h: Hub)
      requires Same(h)
      modifies this
      ensures Same(PruneOwners(h, live, mark))
    {
      var todo := ownerSeq.Keys;
      ghost var dropped := {};
      DropNone(h);
      while todo != {}
        invariant Halfway(h, live, mark, todo, dropped) && Same(Less(h, dropped))
        decreases |todo|
      {
        var id :| id in todo;
        OneOff(h, live, mark, todo, dropped, id);
        if ownerSeq[id] <= mark && id !in live {
          Drop(id, Less(h, dropped));
          dropped := dropped + {id};
        }
        todo := todo - {id};
      }
      AllOff(h, live, mark, dropped);
    }
  }
}
