/** What every interleaving of publishers, subscribers and the loop keeps. */
module EventBusRuns {
  import opened Options
  import opened EventBusSpec

  // ---- What one step may do to one queue ----

  datatype Move<E> =
    | Still
    | Sent(item: Item<E>)            // a worker took its snapshot
    | SentAndPut(item: Item<E>)      // a publish on the loop
    | WasPut(item: Item<E>)          // a scheduled callback
    | Taken                          // the consumer

  function Moved<E>(b: Bus<E>, q: Queue<E>, move: Move<E>): Queue<E> {
    match move
    case Still => q
    case Sent(item) => Send(q, item)
    case SentAndPut(item) => PutDroppingOldest(b, Send(q, item), item)
    case WasPut(item) => PutDroppingOldest(b, q, item)
    case Taken => if q.items == [] then q else TakeFirst(q, true)
  }

  ghost function MoveOf<E>(b: Bus<E>, e: BusEvent<E>, queue: nat): Move<E>
    requires WellFormed(b)
  {
    match e
    case Publish(thread, campaign, event, order) =>
      if thread in b.todo || !Enumerates(order, Members(b, campaign)) || queue !in Members(b, campaign) then Still
      else if !b.attached || thread == LOOP then SentAndPut(Item(thread, event))
      else Sent(Item(thread, event))
    case RunCallback => if b.ready != [] && b.ready[0].queue == queue then WasPut(b.ready[0].item) else Still
    case Get(q) => if q == queue then Taken else Still
    case _ => Still
  }

  lemma PublishMoves<E>(b: Bus<E>, thread: nat, campaign: string, event: E, order: seq<nat>)
    requires WellFormed(b)
    ensures
      var b', e := StepPublish(b, thread, campaign, event, order), Publish(thread, campaign, event, order);
      && |b'.queues| == |b.queues| && b'.bufferSize == b.bufferSize
      && forall q | 0 <= q < |b.queues| :: b'.queues[q] == Moved(b, b.queues[q], MoveOf(b, e, q))
  {
    hide StepPublish, PutDroppingOldest;
    if thread in b.todo || !Enumerates(order, Members(b, campaign)) || order == [] {
      IdlePublish(b, thread, campaign, event, order);
    } else {
      PublishEach(b, thread, campaign, event, order);
    }
  }

  lemma StepMoves<E>(b: Bus<E>, e: BusEvent<E>, queue: nat)
    requires WellFormed(b) && queue < |b.queues|
    ensures queue < |Step(b, e).queues| && Step(b, e).queues[queue] == Moved(b, b.queues[queue], MoveOf(b, e, queue))
    ensures Step(b, e).bufferSize == b.bufferSize
  {
    hide StepPublish, PutDroppingOldest;
    if e.Publish? {
      PublishMoves(b, e.thread, e.campaign, e.event, e.order);
    }
  }

  lemma NewQueueIsEmpty<E>(b: Bus<E>, e: BusEvent<E>, queue: nat)
    requires WellFormed(b) && |b.queues| <= queue < |Step(b, e).queues|
    ensures queue == |b.queues| && e.Register? && Step(b, e).queues[queue] == Queue(e.campaign, [], [], [], [])
  {
    hide StepPublish;
    if e.Publish? {
      PublishMoves(b, e.thread, e.campaign, e.event, e.order);
    }
  }

  // ---- Conservation: every item enqueued is consumed, dropped or still queued ----

  function Items<E>(removed: seq<Removal<E>>): seq<Item<E>> {
    seq(|removed|, i requires 0 <= i < |removed| => removed[i].item)
  }

  function Consumed<E>(removed: seq<Removal<E>>): nat {
    if removed == [] then 0
    else Consumed(removed[..|removed| - 1]) + if removed[|removed| - 1].consumed then 1 else 0
  }

  function Dropped<E>(removed: seq<Removal<E>>): nat {
    if removed == [] then 0
    else Dropped(removed[..|removed| - 1]) + if removed[|removed| - 1].consumed then 0 else 1
  }

  // The queue holds exactly the tail of what was ever enqueued, within its limit.
  ghost predicate QueueOk<E>(bufferSize: int, q: Queue<E>) {
    && q.enqueued == Items(q.removed) + q.items
    && Consumed(q.removed) + Dropped(q.removed) + |q.items| == |q.enqueued|
    && (bufferSize > 0 ==> |q.items| <= bufferSize)
  }

  lemma TakeFirstOk<E>(bufferSize: int, q: Queue<E>, consumed: bool)
    requires QueueOk(bufferSize, q) && q.items != []
    ensures QueueOk(bufferSize, TakeFirst(q, consumed))
    ensures Dropped(TakeFirst(q, consumed).removed) == Dropped(q.removed) + if consumed then 0 else 1
  {
    var q' := TakeFirst(q, consumed);
    assert q'.removed[..|q.removed|] == q.removed;
    assert Items(q'.removed) == Items(q.removed) + [q.items[0]];
    assert q.items == [q.items[0]] + q.items[1..];
  }

  lemma PutOk<E>(b: Bus<E>, q: Queue<E>, item: Item<E>)
    requires QueueOk(b.bufferSize, q)
    ensures QueueOk(b.bufferSize, PutDroppingOldest(b, q, item))
    ensures Dropped(PutDroppingOldest(b, q, item).removed) == Dropped(q.removed) + if Full(b, q) then 1 else 0
  {
    hide QueueOk, Put, TakeFirst, Dropped;
    PutNeedsRoom(b, q);
    if Full(b, q) {
      TakeFirstOk(b.bufferSize, q, false);
      AppendOk(b.bufferSize, TakeFirst(q, false), item);
    } else {
      AppendOk(b.bufferSize, q, item);
    }
  }

  lemma PutNeedsRoom<E>(b: Bus<E>, q: Queue<E>)
    requires QueueOk(b.bufferSize, q)
    ensures !Full(b, q) ==> (b.bufferSize > 0 ==> |q.items| < b.bufferSize)
    ensures Full(b, q) ==> q.items != [] && (b.bufferSize > 0 ==> |TakeFirst(q, false).items| < b.bufferSize)
  {
  }

  lemma AppendOk<E>(bufferSize: int, q: Queue<E>, item: Item<E>)
    requires QueueOk(bufferSize, q) && (bufferSize > 0 ==> |q.items| < bufferSize)
    ensures QueueOk(bufferSize, Put(q, item)) && Put(q, item).removed == q.removed
  {
    hide Items, Consumed, Dropped;
  }

  // An item is lost by a move exactly when the move puts into a full queue.
  lemma MovedOk<E>(b: Bus<E>, q: Queue<E>, move: Move<E>)
    requires QueueOk(b.bufferSize, q)
    ensures QueueOk(b.bufferSize, Moved(b, q, move))
    ensures Dropped(Moved(b, q, move).removed) ==
      Dropped(q.removed) + if (move.SentAndPut? || move.WasPut?) && Full(b, q) then 1 else 0
  {
    hide QueueOk, PutDroppingOldest, TakeFirst;
    match move
    case SentAndPut(item) =>
      SendOk(b.bufferSize, q, item);
      PutOk(b, Send(q, item), item);
    case WasPut(item) => PutOk(b, q, item);
    case Sent(item) => SendOk(b.bufferSize, q, item);
    case Taken =>
      if q.items != [] {
        TakeFirstOk(b.bufferSize, q, true);
      }
    case Still =>
  }

  lemma SendOk<E>(bufferSize: int, q: Queue<E>, item: Item<E>)
    requires QueueOk(bufferSize, q)
    ensures QueueOk(bufferSize, Send(q, item))
  {
  }

  // How often a put has found this queue full.
  ghost function Overruns<E>(bufferSize: int, events: seq<BusEvent<E>>, queue: nat): nat {
    if events == [] then 0
    else
      var b := Run(bufferSize, events[..|events| - 1]);
      var move := MoveOf(b, events[|events| - 1], queue);
      Overruns(bufferSize, events[..|events| - 1], queue)
      + if queue < |b.queues| && (move.SentAndPut? || move.WasPut?) && Full(b, b.queues[queue]) then 1 else 0
  }

  // In every run, every queue: contents are a contiguous suffix of what was enqueued,
  // within the limit; enqueued = consumed + dropped + queued; and the number dropped
  // is the number of puts that found it full, so a consumer that is never a full
  // buffer behind loses nothing.
  lemma {:induction false} QueueAccounts<E>(bufferSize: int, events: seq<BusEvent<E>>, queue: nat)
    ensures Run(bufferSize, events).bufferSize == bufferSize
    ensures queue < |Run(bufferSize, events).queues| ==>
      && QueueOk(bufferSize, Run(bufferSize, events).queues[queue])
      && Dropped(Run(bufferSize, events).queues[queue].removed) == Overruns(bufferSize, events, queue)
    ensures queue >= |Run(bufferSize, events).queues| ==> Overruns(bufferSize, events, queue) == 0
  {
    hide Step, QueueOk, Moved;
    if events != [] {
      var b, e := Run(bufferSize, events[..|events| - 1]), events[|events| - 1];
      QueueAccounts(bufferSize, events[..|events| - 1], queue);
      if queue < |b.queues| {
        StepMoves(b, e, queue);
        MovedOk(b, b.queues[queue], MoveOf(b, e, queue));
      } else {
        StepKeepsLimit(b, e);
        if queue < |Step(b, e).queues| {
          NewQueueIsEmpty(b, e, queue);
          EmptyOk<E>(bufferSize, e.campaign);
        }
      }
    }
  }

  lemma StepKeepsLimit<E>(b: Bus<E>, e: BusEvent<E>)
    requires WellFormed(b)
    ensures Step(b, e).bufferSize == b.bufferSize
  {
    hide StepPublish;
    if e.Publish? {
      PublishMoves(b, e.thread, e.campaign, e.event, e.order);
    }
  }

  lemma EmptyOk<E>(bufferSize: int, campaign: string)
    ensures QueueOk<E>(bufferSize, Queue(campaign, [], [], [], []))
  {
  }

  // The consumer of a queue that was never overrun has received, in order, all that
  // was enqueued but what it has yet to take.
  lemma KeepingUpLosesNothing<E>(bufferSize: int, events: seq<BusEvent<E>>, queue: nat)
    requires queue < |Run(bufferSize, events).queues|
    ensures
      var q := Run(bufferSize, events).queues[queue];
      Overruns(bufferSize, events, queue) == 0 <==> forall i | 0 <= i < |q.removed| :: q.removed[i].consumed
    ensures bufferSize <= 0 ==> Overruns(bufferSize, events, queue) == 0
  {
    QueueAccounts(bufferSize, events, queue);
    NoneDropped(Run(bufferSize, events).queues[queue].removed);
    if bufferSize <= 0 {
      Unlimited(bufferSize, events, queue);
    }
  }

  lemma {:induction false} NoneDropped<E>(removed: seq<Removal<E>>)
    ensures Dropped(removed) == 0 <==> forall i | 0 <= i < |removed| :: removed[i].consumed
  {
    if removed != [] {
      NoneDropped(removed[..|removed| - 1]);
    }
  }

  lemma {:induction false} Unlimited<E>(bufferSize: int, events: seq<BusEvent<E>>, queue: nat)
    requires bufferSize <= 0
    ensures Overruns(bufferSize, events, queue) == 0
  {
    hide Step;
    if events != [] {
      Unlimited(bufferSize, events[..|events| - 1], queue);
      QueueAccounts(bufferSize, events[..|events| - 1], queue);
    }
  }

  // ---- Each publisher's order is kept, and nothing is duplicated or lost on the way ----

  function By<E>(items: seq<Item<E>>, thread: nat): (r: seq<Item<E>>) {
    if items == [] then []
    else
      By(items[..|items| - 1], thread)
      + if items[|items| - 1].thread == thread then [items[|items| - 1]] else []
  }

  function To<E>(deliveries: seq<Delivery<E>>, queue: nat): seq<Item<E>> {
    if deliveries == [] then []
    else
      To(deliveries[..|deliveries| - 1], queue)
      + if deliveries[|deliveries| - 1].queue == queue then [deliveries[|deliveries| - 1].item] else []
  }

  lemma {:induction false} ByConcat<E>(a: seq<Item<E>>, b: seq<Item<E>>, thread: nat)
    ensures By(a + b, thread) == By(a, thread) + By(b, thread)
  {
    if b == [] {
      assert a + b == a;
    } else {
      ByConcat(a, b[..|b| - 1], thread);
      assert (a + b)[..|a + b| - 1] == a + b[..|b| - 1];
    }
  }

  lemma {:induction false} ToConcat<E>(a: seq<Delivery<E>>, b: seq<Delivery<E>>, queue: nat)
    ensures To(a + b, queue) == To(a, queue) + To(b, queue)
  {
    if b == [] {
      assert a + b == a;
    } else {
      ToConcat(a, b[..|b| - 1], queue);
      assert (a + b)[..|a + b| - 1] == a + b[..|b| - 1];
    }
  }

  lemma {:induction false} ToDeliveries<E>(order: seq<nat>, item: Item<E>, queue: nat)
    requires forall i, j | 0 <= i < j < |order| :: order[i] != order[j]
    ensures To(Deliveries(order, item), queue) == if queue in order then [item] else []
  {
    if order != [] {
      var d := Deliveries(order, item);
      assert d[..|d| - 1] == Deliveries(order[..|order| - 1], item);
      ToDeliveries(order[..|order| - 1], item, queue);
      assert order == order[..|order| - 1] + [order[|order| - 1]];
    } else {
      assert Deliveries(order, item) == [];
    }
  }

  lemma {:induction false} OneTo<E>(d: Delivery<E>, queue: nat)
    ensures To([d], queue) == if d.queue == queue then [d.item] else []
  {
    assert [d][..0] == [];
  }

  lemma {:induction false} OneBy<E>(item: Item<E>, thread: nat)
    ensures By([item], thread) == if item.thread == thread then [item] else []
  {
    assert [item][..0] == [];
  }

  // On its way to a queue: scheduled on the loop, or still in the publisher's hands.
  function OnTheWay<E>(b: Bus<E>, queue: nat, thread: nat): seq<Item<E>> {
    By(To(b.ready, queue), thread) + if thread in b.todo then By(To(b.todo[thread], queue), thread) else []
  }

  ghost predicate Ordered<E>(b: Bus<E>, queue: nat, thread: nat)
    requires queue < |b.queues|
  {
    By(b.queues[queue].enqueued, thread) + OnTheWay(b, queue, thread) == By(b.queues[queue].sent, thread)
  }

  lemma {:induction false} NoneByLoop<E>(deliveries: seq<Delivery<E>>, queue: nat, thread: nat)
    requires forall i | 0 <= i < |deliveries| :: deliveries[i].item.thread != thread
    ensures By(To(deliveries, queue), thread) == []
  {
    if deliveries != [] {
      var earlier, last := To(deliveries[..|deliveries| - 1], queue), deliveries[|deliveries| - 1].item;
      NoneByLoop(deliveries[..|deliveries| - 1], queue, thread);
      ByConcat(earlier, [last], thread);
      OneBy(last, thread);
      assert earlier + [] == earlier;
    }
  }

  lemma {:induction false} NoneTo<E>(deliveries: seq<Delivery<E>>, queue: nat)
    requires forall i | 0 <= i < |deliveries| :: deliveries[i].queue != queue
    ensures To(deliveries, queue) == []
  {
    if deliveries != [] {
      NoneTo(deliveries[..|deliveries| - 1], queue);
    }
  }

  lemma PutAppends<E>(b: Bus<E>, q: Queue<E>, item: Item<E>)
    ensures PutDroppingOldest(b, q, item).enqueued == q.enqueued + [item]
    ensures PutDroppingOldest(b, q, item).sent == q.sent
  {
  }

  // A publish that reaches the queue at once: nothing of this thread's is ahead of it.
  lemma DirectPublishOrdered<E>(b: Bus<E>, b': Bus<E>, item: Item<E>, queue: nat, thread: nat)
    requires WellFormed(b) && queue < |b.queues| && Ordered(b, queue, thread)
    requires !b.attached || item.thread == LOOP
    requires b' == b.(queues := b'.queues) && |b'.queues| == |b.queues|
    requires b'.queues[queue].enqueued == b.queues[queue].enqueued + [item]
    requires b'.queues[queue].sent == b.queues[queue].sent + [item]
    ensures Ordered(b', queue, thread)
  {
    hide By, To;
    ByConcat(b.queues[queue].enqueued, [item], thread);
    ByConcat(b.queues[queue].sent, [item], thread);
    OneBy(item, thread);
    if item.thread == thread {
      NoneByLoop(b.ready, queue, thread);
    }
  }

  lemma SendRecords<E>(q: Queue<E>, item: Item<E>)
    ensures Send(q, item).sent == q.sent + [item] && Send(q, item).enqueued == q.enqueued
  {
  }

  lemma WorkerPublishOrdered<E>(b: Bus<E>, b': Bus<E>, order: seq<nat>, item: Item<E>, queue: nat, thread: nat)
    requires WellFormed(b) && queue < |b.queues| && Ordered(b, queue, thread)
    requires item.thread !in b.todo && |b'.queues| == |b.queues|
    requires forall i, j | 0 <= i < j < |order| :: order[i] != order[j]
    requires b' == b.(queues := b'.queues, todo := b.todo[item.thread := Deliveries(order, item)])
    requires b'.queues[queue] == if queue in order then Send(b.queues[queue], item) else b.queues[queue]
    ensures Ordered(b', queue, thread)
  {
    hide By, To, WellFormed, Deliveries, Send;
    SendRecords(b.queues[queue], item);
    ToDeliveries(order, item, queue);
    ByConcat(b.queues[queue].sent, [item], thread);
    OneBy(item, thread);
    NoneByLoop<E>([], queue, thread);
    NoneTo<E>([], queue);
    if item.thread == thread {
      var e, r, f := By(b.queues[queue].enqueued, thread), By(To(b.ready, queue), thread), By(To(Deliveries(order, item), queue), thread);
      assert e + (r + f) == (e + (r + [])) + f;
    }
  }

  lemma PublishOrdered<E>(b: Bus<E>, thread: nat, campaign: string, event: E, order: seq<nat>, queue: nat, p: nat)
    requires WellFormed(b) && queue < |b.queues| && Ordered(b, queue, p)
    ensures |StepPublish(b, thread, campaign, event, order).queues| == |b.queues|
    ensures Ordered(StepPublish(b, thread, campaign, event, order), queue, p)
  {
    hide StepPublish, PutDroppingOldest, Ordered;
    var b' := StepPublish(b, thread, campaign, event, order);
    if thread in b.todo || !Enumerates(order, Members(b, campaign)) || order == [] {
      IdlePublish(b, thread, campaign, event, order);
    } else {
      var item := Item(thread, event);
      PublishEach(b, thread, campaign, event, order);
      PutAppends(b, Send(b.queues[queue], item), item);
      if !b.attached || thread == LOOP {
        if queue in Members(b, campaign) {
          DirectPublishOrdered(b, b', item, queue, p);
        } else {
          SameOrdered(b, b', queue, p);
        }
      } else {
        WorkerPublishOrdered(b, b', order, item, queue, p);
      }
    }
  }

  lemma SameOrdered<E>(b: Bus<E>, b': Bus<E>, queue: nat, thread: nat)
    requires queue < |b.queues| && queue < |b'.queues| && Ordered(b, queue, thread)
    requires b'.ready == b.ready && b'.todo == b.todo
    requires b'.queues[queue].enqueued == b.queues[queue].enqueued && b'.queues[queue].sent == b.queues[queue].sent
    ensures Ordered(b', queue, thread)
  {
  }

  lemma ScheduleOrdered<E>(b: Bus<E>, thread: nat, queue: nat, p: nat)
    requires WellFormed(b) && queue < |b.queues| && Ordered(b, queue, p)
    ensures Ordered(StepSchedule(b, thread), queue, p)
  {
    hide By, To;
    if thread in b.todo && b.todo[thread] != [] {
      var first, rest := b.todo[thread][0], b.todo[thread][1..];
      assert b.todo[thread] == [first] + rest;
      ToConcat(b.ready, [first], queue);
      ToConcat([first], rest, queue);
      ByConcat(To(b.ready, queue), To([first], queue), p);
      ByConcat(To([first], queue), To(rest, queue), p);
      var r, f, t := By(To(b.ready, queue), p), By(To([first], queue), p), By(To(rest, queue), p);
      if thread != p {
        NoneByLoop([first], queue, p);
        assert r + [] == r;
      } else {
        assert r + (f + t) == (r + f) + t;
      }
    } else if thread in b.todo {
      NoneByLoop(b.todo[thread], queue, p);
    }
  }

  lemma CallbackOrdered<E>(b: Bus<E>, queue: nat, p: nat)
    requires WellFormed(b) && queue < |b.queues| && Ordered(b, queue, p)
    ensures Ordered(StepRunCallback(b), queue, p)
  {
    hide By, To, PutDroppingOldest, WellFormed;
    CallbackKeepsQueues(b);
    if b.ready != [] {
      var first, rest := b.ready[0], b.ready[1..];
      assert b.ready == [first] + rest;
      ReadyExists(b);
      PutAppends(b, b.queues[first.queue], first.item);
      ToConcat([first], rest, queue);
      ByConcat(To([first], queue), To(rest, queue), p);
      OneTo(first, queue);
      ByConcat(b.queues[queue].enqueued, [first.item], p);
      NoneByLoop<E>([], queue, p);
      NoneTo<E>([], queue);
      var e, f, t := By(b.queues[queue].enqueued, p), By(To([first], queue), p), By(To(rest, queue), p);
      var d := if p in b.todo then By(To(b.todo[p], queue), p) else [];
      assert e + ((f + t) + d) == (e + f) + (t + d);
      assert e + [] == e;
    }
  }

  lemma ReadyExists<E>(b: Bus<E>)
    requires WellFormed(b) && b.ready != []
    ensures b.ready[0].queue < |b.queues|
  {
  }

  lemma StepOrdered<E>(b: Bus<E>, e: BusEvent<E>, queue: nat, p: nat)
    requires WellFormed(b) && queue < |b.queues| && Ordered(b, queue, p)
    ensures queue < |Step(b, e).queues| && Ordered(Step(b, e), queue, p)
  {
    hide StepPublish, StepSchedule, StepRunCallback, Ordered;
    match e
    case Publish(thread, campaign, event, order) => PublishOrdered(b, thread, campaign, event, order, queue, p);
    case Schedule(thread) =>
      ScheduleOrdered(b, thread, queue, p);
      ScheduleKeepsQueues(b, thread);
    case RunCallback =>
      CallbackOrdered(b, queue, p);
      CallbackKeepsQueues(b);
    case _ => SameOrdered(b, Step(b, e), queue, p);
  }

  lemma ScheduleKeepsQueues<E>(b: Bus<E>, thread: nat)
    ensures StepSchedule(b, thread).queues == b.queues
  {
  }

  lemma CallbackKeepsQueues<E>(b: Bus<E>)
    requires WellFormed(b)
    ensures |StepRunCallback(b).queues| == |b.queues|
  {
  }

  // In every run, for every queue and every thread: what the thread published to the
  // queue is what has been enqueued of it, then what is on its way, in that order.
  // So its events arrive in the order it published them, each at most once, and all
  // of them once the loop has caught up.
  lemma {:induction false} PublisherOrderKept<E>(bufferSize: int, events: seq<BusEvent<E>>, queue: nat, thread: nat)
    requires queue < |Run(bufferSize, events).queues|
    ensures Ordered(Run(bufferSize, events), queue, thread)
  {
    hide Step, Ordered;
    var b, e := Run(bufferSize, events[..|events| - 1]), events[|events| - 1];
    if queue < |b.queues| {
      PublisherOrderKept(bufferSize, events[..|events| - 1], queue, thread);
      StepOrdered(b, e, queue, thread);
    } else {
      NewQueueOrdered(b, e, queue, thread);
    }
  }

  lemma NewQueueOrdered<E>(b: Bus<E>, e: BusEvent<E>, queue: nat, thread: nat)
    requires WellFormed(b) && |b.queues| <= queue < |Step(b, e).queues|
    ensures Ordered(Step(b, e), queue, thread)
  {
    hide StepPublish, StepUnsubscribe, StepSchedule, StepRunCallback, StepGet;
    NewQueueIsEmpty(b, e, queue);
    NoneTo(b.ready, queue);
    if thread in b.todo {
      NoneTo(b.todo[thread], queue);
    }
  }

  // ---- Who is sent what ----

  // A publish is sent, once, to exactly the queues registered under its campaign.
  lemma SentToSubscribers<E>(b: Bus<E>, thread: nat, campaign: string, event: E, order: seq<nat>, queue: nat)
    requires WellFormed(b) && queue < |b.queues|
    requires thread !in b.todo && Enumerates(order, Members(b, campaign))
    ensures queue < |StepPublish(b, thread, campaign, event, order).queues|
    ensures StepPublish(b, thread, campaign, event, order).queues[queue].sent ==
      b.queues[queue].sent + if queue in Members(b, campaign) then [Item(thread, event)] else []
  {
    hide StepPublish;
    PublishMoves(b, thread, campaign, event, order);
    PutAppends(b, Send(b.queues[queue], Item(thread, event)), Item(thread, event));
  }

  // Once released, a queue is never sent anything again.
  ghost predicate Gone<E>(b: Bus<E>, queue: nat) {
    queue < |b.queues| && forall c <- b.subscribers :: queue !in b.subscribers[c]
  }

  lemma UnsubscribeReleases<E>(b: Bus<E>, queue: nat)
    requires WellFormed(b) && queue < |b.queues|
    ensures Gone(StepUnsubscribe(b, queue), queue)
  {
    forall c | c in b.subscribers && queue in b.subscribers[c] ensures c == b.queues[queue].campaign {
    }
  }

  lemma StepKeepsGone<E>(b: Bus<E>, e: BusEvent<E>, queue: nat)
    requires WellFormed(b) && Gone(b, queue)
    ensures Gone(Step(b, e), queue) && Step(b, e).queues[queue].sent == b.queues[queue].sent
  {
    hide StepPublish, PutDroppingOldest;
    match e
    case Publish(thread, campaign, event, order) =>
      PublishMoves(b, thread, campaign, event, order);
      PublishKeepsMembers(b, thread, campaign, event, order);
    case RunCallback =>
      if b.ready != [] {
        PutAppends(b, b.queues[b.ready[0].queue], b.ready[0].item);
      }
    case _ =>
  }

  lemma PublishKeepsMembers<E>(b: Bus<E>, thread: nat, campaign: string, event: E, order: seq<nat>)
    requires WellFormed(b)
    ensures StepPublish(b, thread, campaign, event, order).subscribers == b.subscribers
  {
    hide StepPublish;
    if thread in b.todo || !Enumerates(order, Members(b, campaign)) || order == [] {
      IdlePublish(b, thread, campaign, event, order);
    } else {
      PublishEach(b, thread, campaign, event, order);
    }
  }

  lemma {:induction false} GoneForEver<E>(bufferSize: int, before: seq<BusEvent<E>>, after: seq<BusEvent<E>>, queue: nat)
    requires Gone(Run(bufferSize, before), queue)
    ensures Gone(Run(bufferSize, before + after), queue)
    ensures Run(bufferSize, before + after).queues[queue].sent == Run(bufferSize, before).queues[queue].sent
  {
    hide Step;
    var all := before + after;
    if after == [] {
      assert all == before;
    } else {
      assert all[..|all| - 1] == before + after[..|after| - 1];
      GoneForEver(bufferSize, before, after[..|after| - 1], queue);
      StepKeepsGone(Run(bufferSize, all[..|all| - 1]), all[|all| - 1], queue);
    }
  }
}
