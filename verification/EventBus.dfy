/** The event bus as the program updates it, proved against EventBusSpec. A queue
    object is the record at its identity in `queues`; `sent`, `enqueued` and
    `removed` in that record are history, which nothing here reads. */
module EventBus {
  import opened Options
  import opened EventBusSpec
  import EventBusRuns

  class EventBus<E(==)> {
    const bufferSize: int
    var attached: bool
    var subscribers: map<string, set<nat>>
    var queues: seq<Queue<E>>
    // The loop's pending callbacks, and what each worker has yet to hand it.
    var ready: seq<Delivery<E>>
    var todo: map<nat, seq<Delivery<E>>>

    ghost function View(): Bus<E>
      reads this
    {
      Bus(bufferSize, attached, subscribers, queues, ready, todo)
    }

    ghost predicate Valid()
      reads this
    {
      WellFormed(View())
    }

    constructor (bufferSize: int)
      ensures Valid() && View() == Init(bufferSize)
    {
      this.bufferSize, attached, subscribers, queues, ready, todo := bufferSize, false, map[], [], [], map[];
    }

    method AttachLoop()
      requires Valid()
      modifies this`attached
      ensures Valid() && View() == Step(old(View()), Attach)
    {
      attached := true;
    }

    // asyncio.Queue.put_nowait: false stands for QueueFull.
    method PutNowait(queue: nat, item: Item<E>) returns (ok: bool)
      requires queue < |queues|
      modifies this`queues
      ensures ok == !Full(old(View()), old(queues)[queue])
      ensures queues == if ok then old(queues)[queue := Put(old(queues)[queue], item)] else old(queues)
    {
      ok := !(bufferSize > 0 && |queues[queue].items| >= bufferSize);
      if ok {
        queues := queues[queue := queues[queue].(
          items := queues[queue].items + [item], enqueued := queues[queue].enqueued + [item])];
      }
    }

    // asyncio.Queue.get_nowait: None stands for QueueEmpty.
    method GetNowait(queue: nat, consumed: bool) returns (item: Option<Item<E>>)
      requires queue < |queues|
      modifies this`queues
      ensures item.Some? <==> old(queues)[queue].items != []
      ensures item.Some? ==> item.value == old(queues)[queue].items[0]
      ensures queues == if item.Some? then old(queues)[queue := TakeFirst(old(queues)[queue], consumed)] else old(queues)
    {
      if queues[queue].items == [] {
        return None;
      }
      item := Some(queues[queue].items[0]);
      queues := queues[queue := queues[queue].(
        items := queues[queue].items[1..],
        removed := queues[queue].removed + [Removal(queues[queue].items[0], consumed)])];
    }

    // The second put cannot fail: the branch that would log a still-full queue is dead.
    method EnqueueOne(queue: nat, item: Item<E>)
      requires queue < |queues| && Within(bufferSize, queues[queue])
      modifies this`queues
      ensures View() == Enqueue(old(View()), queue, item)
      ensures Within(bufferSize, queues[queue])
    {
      var ok := PutNowait(queue, item);
      if !ok {
        var _ := GetNowait(queue, false);
        ok := PutNowait(queue, item);
        assert ok;
      }
    }

    method EnqueueEach(snapshot: seq<nat>, item: Item<E>)
      requires forall i | 0 <= i < |snapshot| :: snapshot[i] < |queues|
      requires forall q | 0 <= q < |queues| :: Within(bufferSize, queues[q])
      modifies this`queues
      ensures View() == EnqueueAll(old(View()), snapshot, item)
    {
      for i := 0 to |snapshot|
        invariant |queues| == |old(queues)|
        invariant forall q | 0 <= q < |queues| :: Within(bufferSize, queues[q])
        invariant View() == EnqueueAll(old(View()), snapshot[..i], item)
      {
        assert snapshot[..i + 1][..i] == snapshot[..i];
        EnqueueOne(snapshot[i], item);
      }
      assert snapshot[..|snapshot|] == snapshot;
    }

    // list(queues): every member once, in no particular order.
    method Snapshot(members: set<nat>) returns (order: seq<nat>)
      ensures Enumerates(order, members)
    {
      order := [];
      var rest := members;
      while rest != {}
        invariant rest <= members && Enumerates(order, members - rest)
        decreases rest
      {
        var q :| q in rest;
        order, rest := order + [q], rest - {q};
      }
    }

    // Off the loop, each scheduling call is a step of its own (see ScheduleNext), so
    // a worker's publish ends here with its deliveries still in its hands.
    method Publish(thread: nat, campaign: string, event: E) returns (ghost order: seq<nat>)
      requires Valid() && thread !in todo
      modifies this`queues, this`todo
      ensures Valid() && Enumerates(order, Members(old(View()), campaign))
      ensures View() == StepPublish(old(View()), thread, campaign, event, order)
    {
      hide StepPublish, WellFormed;
      ghost var b := View();
      MembersExist(b, campaign);
      AllWithin(b);
      if campaign !in subscribers || subscribers[campaign] == {} {
        IdlePublish(b, thread, campaign, event, []);
        return [];
      }
      var snapshot := Snapshot(subscribers[campaign]);
      order := snapshot;
      var item := Item(thread, event);
      PublishKeepsWellFormed(b, thread, campaign, event, snapshot);
      ActivePublish(b, thread, campaign, event, snapshot);
      queues := SendAll(queues, subscribers[campaign], item);
      if !attached || thread == LOOP {
        EnqueueEach(snapshot, item);
      } else {
        todo := todo[thread := Deliveries(snapshot, item)];
      }
    }

    static lemma AllWithin(b: Bus<E>)
      requires WellFormed(b)
      ensures forall q | 0 <= q < |b.queues| :: Within(b.bufferSize, b.queues[q])
    {
    }

    static lemma ActivePublish(b: Bus<E>, thread: nat, campaign: string, event: E, order: seq<nat>)
      requires WellFormed(b) && thread !in b.todo && Enumerates(order, Members(b, campaign)) && order != []
      ensures forall i | 0 <= i < |order| :: order[i] < |b.queues|
      ensures
        var b1 := b.(queues := SendAll(b.queues, Members(b, campaign), Item(thread, event)));
        StepPublish(b, thread, campaign, event, order) ==
          if !b.attached || thread == LOOP then EnqueueAll(b1, order, Item(thread, event))
          else b1.(todo := b.todo[thread := Deliveries(order, Item(thread, event))])
    {
      MembersExist(b, campaign);
    }

    // One call_soon_threadsafe of a worker inside publish; after the last, it returns.
    method ScheduleNext(thread: nat)
      requires Valid() && thread in todo
      modifies this`ready, this`todo
      ensures Valid() && View() == StepSchedule(old(View()), thread)
    {
      StepKeepsWellFormed(View(), EventBusSpec.Schedule(thread));
      if todo[thread] == [] {
        todo := todo - {thread};
      } else {
        ready := ready + [todo[thread][0]];
        todo := todo[thread := todo[thread][1..]];
      }
    }

    // The loop runs its oldest callback.
    method RunNextCallback()
      requires Valid() && ready != []
      modifies this`ready, this`queues
      ensures Valid() && View() == StepRunCallback(old(View()))
    {
      StepKeepsWellFormed(View(), RunCallback);
      var Delivery(queue, item) := ready[0];
      ready := ready[1..];
      EnqueueOne(queue, item);
    }

    method Register(campaign: string) returns (queue: nat)
      requires Valid()
      modifies this`queues, this`subscribers
      ensures Valid() && View() == StepRegister(old(View()), campaign)
      ensures queue == |old(queues)| && queue in subscribers[campaign]
    {
      hide WellFormed;
      StepKeepsWellFormed(View(), EventBusSpec.Register(campaign));
      queue := |queues|;
      queues := queues + [Queue(campaign, [], [], [], [])];
      if campaign !in subscribers {
        subscribers := subscribers[campaign := {}];
      }
      subscribers := subscribers[campaign := subscribers[campaign] + {queue}];
      assert subscribers == old(subscribers)[campaign := Members(old(View()), campaign) + {queue}];
    }

    method Unsubscribe(queue: nat)
      requires Valid() && queue < |queues|
      modifies this`subscribers
      ensures Valid() && View() == StepUnsubscribe(old(View()), queue)
      ensures forall c <- subscribers :: queue !in subscribers[c]
    {
      hide WellFormed;
      EventBusRuns.UnsubscribeReleases(View(), queue);
      StepKeepsWellFormed(View(), EventBusSpec.Unsubscribe(queue));
      var campaign := queues[queue].campaign;
      if campaign in subscribers {
        subscribers := subscribers[campaign := subscribers[campaign] - {queue}];
        if subscribers[campaign] == {} {
          subscribers := subscribers - {campaign};
          assert subscribers == old(subscribers) - {campaign};
        }
      }
      assert View() == StepUnsubscribe(old(View()), queue);
    }

    // The consumer's get, when it does not have to wait.
    method Get(queue: nat) returns (event: E)
      requires Valid() && queue < |queues| && queues[queue].items != []
      modifies this`queues
      ensures Valid() && View() == StepGet(old(View()), queue)
      ensures event == old(queues)[queue].items[0].event
    {
      StepKeepsWellFormed(View(), EventBusSpec.Get(queue));
      var item := GetNowait(queue, true);
      event := item.value.event;
    }

    method SubscriberCount(campaign: string) returns (n: nat)
      requires Valid()
      ensures n == |Members(View(), campaign)|
    {
      n := if campaign in subscribers then |subscribers[campaign]| else 0;
    }
  }
}
