/** Bounded drop-oldest fan-out to live subscribers (web/routes/stream.py). */
module Broadcaster {
  import opened Prelude

  /**
   One subscription: its queue, and as history everything published since it began, the positions
   therein of what it was delivered, and how many events its queue dropped.
   */
  datatype Sub<T> = Sub(items: seq<T>, published: seq<T>, delivered: seq<nat>, dropped: nat)

  /** `asyncio.Queue.full`: a maximum size of 0 or less means no bound. */
  predicate Full(size: int, n: nat) {
    size > 0 && n >= size
  }

  /** One `publish` as seen by one queue: make room by dropping the oldest, then put. */
  function Offer<T>(size: int, s: Sub<T>, ev: T): Sub<T> {
    if Full(size, |s.items|) then
      Sub(s.items[1..] + [ev], s.published + [ev], s.delivered, s.dropped + 1)
    else
      s.(items := s.items + [ev], published := s.published + [ev])
  }

  /** One `get` by the subscriber's own loop. */
  function Deliver<T>(s: Sub<T>): Sub<T>
    requires s.items != [] && |s.items| <= |s.published|
  {
    s.(items := s.items[1..], delivered := s.delivered + [|s.published| - |s.items|])
  }

  ghost predicate Sound<T>(size: int, s: Sub<T>) {
    && |s.items| <= |s.published|
    && s.items == s.published[|s.published| - |s.items|..]
    && (size > 0 ==> |s.items| <= size)
    && (size <= 0 ==> s.dropped == 0)
    && (forall i :: 0 <= i < |s.delivered| ==> s.delivered[i] < |s.published| - |s.items|)
    && (forall i, j :: 0 <= i < j < |s.delivered| ==> s.delivered[i] < s.delivered[j])
    && |s.delivered| + |s.items| + s.dropped == |s.published|
  }

  lemma OfferSound<T>(size: int, s: Sub<T>, ev: T)
    requires Sound(size, s)
    ensures Sound(size, Offer(size, s, ev))
    ensures Offer(size, s, ev).dropped != s.dropped <==> size > 0 && |s.items| == size
    // the event goes last, the oldest goes if there is no room, and everything else stays
    ensures var s' := Offer(size, s, ev);
            && s'.published == s.published + [ev] && s'.delivered == s.delivered
            && s'.items == (if size > 0 && |s.items| == size then s.items[1..] else s.items) + [ev]
  {
  }

  lemma OfferPuts<T>(size: int, s: Sub<T>, ev: T, s': Sub<T>)
    requires s' == Offer(size, s, ev)
    ensures s'.published == s.published + [ev] && s'.items != [] && s'.items[|s'.items| - 1] == ev
  {
  }

  lemma DeliverSound<T>(size: int, s: Sub<T>)
    requires Sound(size, s) && s.items != []
    ensures Sound(size, Deliver(s))
    ensures s.published[|s.published| - |s.items|] == s.items[0]
    // one more delivery, that of the oldest event queued, and nothing dropped
    ensures var s' := Deliver(s);
            && s'.delivered == s.delivered + [|s.published| - |s.items|] && s'.items == s.items[1..]
            && s'.published == s.published && s'.dropped == s.dropped
  {
  }

  // ---------- any number of subscribers ----------

  datatype Op<T> =
    | Publish(ev: T)
    | Join(who: nat)
    | Leave(who: nat)
    | Take(who: nat)

  function Step<T>(size: int, subs: map<nat, Sub<T>>, op: Op<T>): map<nat, Sub<T>> {
    match op
    case Publish(ev) => map i | i in subs :: Offer(size, subs[i], ev)
    case Join(i) => if i in subs then subs else subs[i := Sub([], [], [], 0)]
    case Leave(i) => subs - {i}
    case Take(i) =>
      if i in subs && 0 < |subs[i].items| <= |subs[i].published| then subs[i := Deliver(subs[i])] else subs
  }

  function Run<T>(size: int, ops: seq<Op<T>>): map<nat, Sub<T>> {
    if ops == [] then map[]
    else Step(size, Run(size, ops[..|ops| - 1]), ops[|ops| - 1])
  }

  /**
   Over every run and for every subscriber: the queue is a contiguous suffix of what was published since
   it joined, never above the bound; deliveries are in order without repeats and precede the queue; and
   delivered, queued and dropped events add up to the published ones.
   */
  lemma {:induction false} EveryQueueSound<T>(size: int, ops: seq<Op<T>>, who: nat)
    requires who in Run(size, ops)
    ensures Sound(size, Run(size, ops)[who])
  {
    var n := |ops| - 1;
    var before := Run(size, ops[..n]);
    if who in before {
      EveryQueueSound(size, ops[..n], who);
      match ops[n]
      case Publish(ev) => OfferSound(size, before[who], ev);
      case Take(i) => if i == who && before[who].items != [] { DeliverSound(size, before[who]); }
      case _ =>
    }
  }

  /** What has been published since the subscriber last joined, None if it is not subscribed. */
  function Heard<T>(ops: seq<Op<T>>, who: nat): Option<seq<T>> {
    if ops == [] then None
    else
      var before := Heard(ops[..|ops| - 1], who);
      match ops[|ops| - 1]
      case Publish(ev) => if before.Some? then Some(before.value + [ev]) else None
      case Join(i) => if i == who && before.None? then Some([]) else before
      case Leave(i) => if i == who then None else before
      case Take(_) => before
  }

  /** In every run a subscriber's history is exactly what was published while it was subscribed. */
  lemma {:induction false} HistoryIsWhatWasPublished<T>(size: int, ops: seq<Op<T>>, who: nat)
    ensures who in Run(size, ops) <==> Heard(ops, who).Some?
    ensures who in Run(size, ops) ==> Run(size, ops)[who].published == Heard(ops, who).value
  {
    if ops != [] {
      var n := |ops| - 1;
      HistoryIsWhatWasPublished(size, ops[..n], who);
      var before := Run(size, ops[..n]);
      if who in before {
        EveryQueueSound(size, ops[..n], who);
        if ops[n].Publish? {
          OfferSound(size, before[who], ops[n].ev);
        }
      }
    }
  }

  /** A get by a subscriber with something queued delivers the oldest event it has heard and not yet lost or got. */
  lemma TakeDelivers<T>(size: int, ops: seq<Op<T>>, who: nat)
    requires who in Run(size, ops) && Run(size, ops)[who].items != []
    ensures var s := Run(size, ops)[who];
            who in Run(size, ops + [Take(who)])
            && var s' := Run(size, ops + [Take(who)])[who];
               && s'.delivered == s.delivered + [|s.published| - |s.items|] && s'.items == s.items[1..]
               && s'.published == s.published && s'.dropped == s.dropped
  {
    assert (ops + [Take(who)])[..|ops|] == ops;
    EveryQueueSound(size, ops, who);
    DeliverSound(size, Run(size, ops)[who]);
  }

  predicate Concerns<T>(op: Op<T>, who: nat) {
    !op.Publish? && op.who == who
  }

  /** The run with one subscriber's every action erased. */
  function Erase<T>(ops: seq<Op<T>>, who: nat): seq<Op<T>> {
    if ops == [] then []
    else
      var op := ops[|ops| - 1];
      Erase(ops[..|ops| - 1], who) + if Concerns(op, who) then [] else [op]
  }

  ghost predicate SameFor<T>(a: map<nat, Sub<T>>, b: map<nat, Sub<T>>, who: nat) {
    (who in a <==> who in b) && (who in a ==> a[who] == b[who])
  }

  lemma OthersActions<T>(size: int, subs: map<nat, Sub<T>>, op: Op<T>, who: nat)
    requires !op.Publish? && op.who != who
    ensures SameFor(Step(size, subs, op), subs, who)
  {
  }

  lemma SameAction<T>(size: int, a: map<nat, Sub<T>>, b: map<nat, Sub<T>>, op: Op<T>, who: nat)
    requires SameFor(a, b, who)
    ensures SameFor(Step(size, a, op), Step(size, b, op), who)
  {
  }

  /** No subscriber's presence or pace changes anything for another. */
  lemma {:induction false} SubscribersIndependent<T>(size: int, ops: seq<Op<T>>, who: nat, other: nat)
    requires who != other
    ensures SameFor(Run(size, ops), Run(size, Erase(ops, other)), who)
  {
    if ops != [] {
      var n := |ops| - 1;
      SubscribersIndependent(size, ops[..n], who, other);
      var e := Erase(ops, other);
      if Concerns(ops[n], other) {
        assert e == Erase(ops[..n], other);
        OthersActions(size, Run(size, ops[..n]), ops[n], who);
      } else {
        assert e[..|e| - 1] == Erase(ops[..n], other) && e[|e| - 1] == ops[n];
        SameAction(size, Run(size, ops[..n]), Run(size, e[..|e| - 1]), ops[n], who);
      }
    }
  }

  // ---------- the objects ----------

  /** An `asyncio.Queue` with the history of its subscription. */
  class SubQueue<T> {
    const size: int
    var items: seq<T>
    ghost var published: seq<T>
    ghost var delivered: seq<nat>
    ghost var dropped: nat

    ghost function View(): Sub<T>
      reads this
    {
      Sub(items, published, delivered, dropped)
    }

    ghost predicate Valid()
      reads this
    {
      Sound(size, View())
    }

    constructor (size: int)
      ensures this.size == size && View() == Sub([], [], [], 0) && Valid()
    {
      this.size := size;
      items, published, delivered, dropped := [], [], [], 0;
    }

    /** The subscriber's `get`, once an item is there. */
    method GetItem() returns (ev: T)
      requires Valid() && items != []
      modifies this
      ensures Valid() && View() == Deliver(old(View())) && ev == old(items)[0]
    {
      DeliverSound(size, View());
      ev := items[0];
      delivered := delivered + [|published| - |items|];
      items := items[1..];
    }

    /** The publisher's part: a full queue loses its oldest item, so the put never waits. */
    method PutDroppingOldest(ev: T)
      requires Valid()
      modifies this
      ensures Valid() && View() == Offer(size, old(View()), ev)
      ensures published == old(published) + [ev] && items != [] && items[|items| - 1] == ev
    {
      OfferSound(size, View(), ev);
      if Full(size, |items|) {
        items := items[1..];
        dropped := dropped + 1;
      }
      items := items + [ev];
      published := published + [ev];
    }
  }

  class EventBroadcaster<T> {
    const queueSize: int
    var queues: set<SubQueue<T>>

    constructor (queueSize: int)
      ensures this.queueSize == queueSize && queues == {}
    {
      this.queueSize := queueSize;
      queues := {};
    }

    ghost predicate Valid()
      reads this, queues
    {
      forall q :: q in queues ==> q.size == queueSize && q.Valid()
    }

    method Subscribe() returns (q: SubQueue<T>)
      requires Valid()
      modifies this
      ensures Valid() && fresh(q) && queues == old(queues) + {q} && q.View() == Sub([], [], [], 0)
    {
      q := new SubQueue<T>(queueSize);
      queues := queues + {q};
    }

    method Unsubscribe(q: SubQueue<T>)
      requires Valid()
      modifies this
      ensures Valid() && queues == old(queues) - {q}
    {
      queues := queues - {q};
    }

    method PublishEvent(ev: T)
      requires Valid()
      modifies queues
      ensures Valid() && queues == old(queues)
      ensures forall q :: q in queues ==> q.View() == Offer(queueSize, old(q.View()), ev)
      // the event is on every queue, in the last place
      ensures forall q :: q in queues ==>
                q.published == old(q.published) + [ev] && q.items != [] && q.items[|q.items| - 1] == ev
    {
      var left := queues;
      while left != {}
        invariant left <= queues
        invariant forall q :: q in queues ==> q.size == queueSize && q.Valid()
        invariant forall q :: q in left ==> q.View() == old(q.View())
        invariant forall q :: q in queues && q !in left ==> q.View() == Offer(queueSize, old(q.View()), ev)
        decreases left
      {
        var q :| q in left;
        q.PutDroppingOldest(ev);
        left := left - {q};
      }
      forall q | q in queues
        ensures q.published == old(q.published) + [ev] && q.items != [] && q.items[|q.items| - 1] == ev
      {
        OfferPuts(queueSize, old(q.View()), ev, q.View());
      }
    }
  }
}
