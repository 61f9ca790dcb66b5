/** Who is subscribed, read off the run alone: a queue joins its campaign when it is
    registered and stays until its own unsubscribe. */
module EventBusMembers {
  import opened Options
  import opened EventBusSpec
  import opened EventBusRuns

  // Queues are numbered in the order of their registration.
  function Registrations<E>(events: seq<BusEvent<E>>): nat {
    if events == [] then 0
    else Registrations(events[..|events| - 1]) + if events[|events| - 1].Register? then 1 else 0
  }

  // Event i registered this queue for the campaign.
  predicate Registers<E>(events: seq<BusEvent<E>>, i: int, campaign: string, queue: nat) {
    && 0 <= i < |events| && events[i].Register? && events[i].campaign == campaign
    && Registrations(events[..i]) == queue
  }

  predicate Leaves<E>(e: BusEvent<E>, queue: nat) {
    e.Unsubscribe? && e.queue == queue
  }

  ghost predicate Subscribed<E>(events: seq<BusEvent<E>>, campaign: string, queue: nat) {
    exists i :: Registers(events, i, campaign, queue) && forall j | i < j < |events| :: !Leaves(events[j], queue)
  }

  lemma {:induction false} RegistrationsMake<E>(bufferSize: int, events: seq<BusEvent<E>>)
    ensures |Run(bufferSize, events).queues| == Registrations(events)
  {
    hide Step;
    if events != [] {
      RegistrationsMake(bufferSize, events[..|events| - 1]);
      StepMakes(Run(bufferSize, events[..|events| - 1]), events[|events| - 1]);
    }
  }

  lemma StepMakes<E>(b: Bus<E>, e: BusEvent<E>)
    requires WellFormed(b)
    ensures |Step(b, e).queues| == |b.queues| + if e.Register? then 1 else 0
  {
    hide StepPublish, PutDroppingOldest;
    if e.Publish? {
      PublishMoves(b, e.thread, e.campaign, e.event, e.order);
    }
  }

  // What one step does to one queue's membership.
  lemma StepMembers<E>(b: Bus<E>, e: BusEvent<E>, campaign: string, queue: nat)
    requires WellFormed(b)
    ensures queue in Members(Step(b, e), campaign) <==>
      || (queue in Members(b, campaign) && !Leaves(e, queue))
      || (e.Register? && e.campaign == campaign && queue == |b.queues|)
  {
    hide StepPublish, PutDroppingOldest;
    MembersExist(b, campaign);
    if e.Publish? {
      PublishKeepsMembers(b, e.thread, e.campaign, e.event, e.order);
    }
  }

  lemma SubscribedNext<E>(events: seq<BusEvent<E>>, campaign: string, queue: nat)
    requires events != []
    ensures var n := |events| - 1;
      Subscribed(events, campaign, queue) <==>
        || (Subscribed(events[..n], campaign, queue) && !Leaves(events[n], queue))
        || Registers(events, n, campaign, queue)
  {
    hide Registrations;
    var n := |events| - 1;
    var earlier := events[..n];
    forall i | 0 <= i < n
      ensures Registers(events, i, campaign, queue) <==> Registers(earlier, i, campaign, queue)
    {
      assert earlier[..i] == events[..i];
    }
    if i :| Registers(events, i, campaign, queue) && forall j | i < j < |events| :: !Leaves(events[j], queue) {
      if i < n {
        assert Registers(earlier, i, campaign, queue);
        assert forall j | i < j < n :: !Leaves(earlier[j], queue);
      }
    }
    if Subscribed(earlier, campaign, queue) && !Leaves(events[n], queue) {
      var i :| Registers(earlier, i, campaign, queue) && forall j | i < j < n :: !Leaves(earlier[j], queue);
      assert Registers(events, i, campaign, queue);
      assert forall j | i < j < n :: !Leaves(events[j], queue);
    }
  }

  // In every run the subscribers of a campaign are exactly the queues registered for it
  // whose own unsubscribe has not come since.
  lemma {:induction false} MembersAreSubscribed<E>(
      bufferSize: int, events: seq<BusEvent<E>>, campaign: string, queue: nat)
    ensures queue in Members(Run(bufferSize, events), campaign) <==> Subscribed(events, campaign, queue)
  {
    hide Step, Members, Registrations, Subscribed;
    if events == [] {
      NobodySubscribed<E>(bufferSize, campaign, queue);
    } else {
      var n := |events| - 1;
      MembersAreSubscribed(bufferSize, events[..n], campaign, queue);
      RegistrationsMake(bufferSize, events[..n]);
      StepMembers(Run(bufferSize, events[..n]), events[n], campaign, queue);
      SubscribedNext(events, campaign, queue);
    }
  }

  lemma NobodySubscribed<E>(bufferSize: int, campaign: string, queue: nat)
    ensures queue !in Members(Run<E>(bufferSize, []), campaign) && !Subscribed<E>([], campaign, queue)
  {
  }

  // So whatever came before, a publish is sent to each of them, once, and to nobody else;
  // one on the loop, or from before the loop is attached, is in their queues at once.
  lemma PublishReaches<E>(bufferSize: int, events: seq<BusEvent<E>>, thread: nat, campaign: string, event: E,
      order: seq<nat>, queue: nat)
    requires queue < Registrations(events) && thread !in Run(bufferSize, events).todo
    requires Enumerates(order, Members(Run(bufferSize, events), campaign))
    ensures
      var b, b' := Run(bufferSize, events), Run(bufferSize, events + [Publish(thread, campaign, event, order)]);
      var sent := if Subscribed(events, campaign, queue) then [Item(thread, event)] else [];
      && queue < |b.queues| == |b'.queues| && b'.queues[queue].sent == b.queues[queue].sent + sent
      && (!b.attached || thread == LOOP ==> b'.queues[queue].enqueued == b.queues[queue].enqueued + sent)
  {
    hide Members, Step, StepPublish, Registrations, Subscribed, Enumerates, PutDroppingOldest;
    var b, e := Run(bufferSize, events), Publish(thread, campaign, event, order);
    var all := events + [e];
    assert all[..|all| - 1] == events;
    assert Run(bufferSize, all) == Step(b, e);
    RegistrationsMake(bufferSize, events);
    MembersAreSubscribed(bufferSize, events, campaign, queue);
    PublishSends(b, thread, campaign, event, order, queue);
  }

  lemma PublishSends<E>(b: Bus<E>, thread: nat, campaign: string, event: E, order: seq<nat>, queue: nat)
    requires WellFormed(b) && queue < |b.queues|
    requires thread !in b.todo && Enumerates(order, Members(b, campaign))
    ensures
      var b', sent := Step(b, Publish(thread, campaign, event, order)),
        if queue in Members(b, campaign) then [Item(thread, event)] else [];
      && |b'.queues| == |b.queues| && b'.queues[queue].sent == b.queues[queue].sent + sent
      && (!b.attached || thread == LOOP ==> b'.queues[queue].enqueued == b.queues[queue].enqueued + sent)
  {
    hide StepPublish, PutDroppingOldest, WellFormed, Enumerates;
    PublishMoves(b, thread, campaign, event, order);
    PutAppends(b, Send(b.queues[queue], Item(thread, event)), Item(thread, event));
  }

  // ---- Nothing stays on the way ----

  ghost function Schedules<E>(b: Bus<E>, thread: nat, n: nat): (b': Bus<E>)
    requires WellFormed(b)
    ensures WellFormed(b')
    decreases n
  {
    if n == 0 then b
    else
      ScheduleKeepsWellFormed(b, thread);
      Schedules(Step(b, Schedule(thread)), thread, n - 1)
  }

  ghost function Callbacks<E>(b: Bus<E>, n: nat): (b': Bus<E>)
    requires WellFormed(b)
    ensures WellFormed(b')
    decreases n
  {
    if n == 0 then b
    else
      CallbackKeepsWellFormed(b);
      Callbacks(Step(b, RunCallback), n - 1)
  }

  // A worker that goes on schedules all it holds, in order, and is out of publish.
  lemma {:induction false} WorkerFinishes<E>(b: Bus<E>, thread: nat)
    requires WellFormed(b) && thread in b.todo
    ensures Schedules(b, thread, |b.todo[thread]| + 1)
      == b.(ready := b.ready + b.todo[thread], todo := b.todo - {thread})
    decreases |b.todo[thread]|
  {
    hide WellFormed;
    ScheduleKeepsWellFormed(b, thread);
    var b1 := Step(b, Schedule(thread));
    if b.todo[thread] != [] {
      WorkerFinishes(b1, thread);
      assert b1.todo - {thread} == b.todo - {thread};
      assert b.ready + [b.todo[thread][0]] + b.todo[thread][1..] == b.ready + b.todo[thread];
    } else {
      assert b.ready + [] == b.ready;
    }
  }

  // A loop that goes on runs every callback scheduled, and each queue gets what was meant
  // for it, in order.
  lemma {:induction false} LoopCatchesUp<E>(b: Bus<E>, queue: nat)
    requires WellFormed(b) && queue < |b.queues|
    ensures var b' := Callbacks(b, |b.ready|);
      && b'.ready == [] && queue < |b'.queues| && b'.todo == b.todo && b'.subscribers == b.subscribers
      && b'.queues[queue].enqueued == b.queues[queue].enqueued + To(b.ready, queue)
    decreases |b.ready|
  {
    hide WellFormed, PutDroppingOldest, To;
    if b.ready == [] {
      NoneTo(b.ready, queue);
    } else {
      CallbackKeepsWellFormed(b);
      CallbackKeepsQueues(b);
      var b1, first, rest := Step(b, RunCallback), b.ready[0], b.ready[1..];
      ReadyExists(b);
      PutAppends(b, b.queues[first.queue], first.item);
      LoopCatchesUp(b1, queue);
      assert b.ready == [first] + rest;
      ToConcat([first], rest, queue);
      OneTo(first, queue);
    }
  }

  // ---- The loop ----

  // Publishes from workers go through the loop exactly once the loop has been attached.
  lemma {:induction false} AttachedIff<E>(bufferSize: int, events: seq<BusEvent<E>>)
    ensures Run(bufferSize, events).attached <==> exists i :: 0 <= i < |events| && events[i].Attach?
  {
    hide Step;
    if events != [] {
      var n := |events| - 1;
      AttachedIff(bufferSize, events[..n]);
      StepAttaches(Run(bufferSize, events[..n]), events[n]);
      assert events == events[..n] + [events[n]];
    }
  }

  lemma StepAttaches<E>(b: Bus<E>, e: BusEvent<E>)
    requires WellFormed(b)
    ensures Step(b, e).attached <==> b.attached || e.Attach?
  {
    hide StepPublish, PutDroppingOldest;
    if e.Publish? {
      PublishKeepsLoop(b, e.thread, e.campaign, e.event, e.order);
    }
  }

  lemma PublishKeepsLoop<E>(b: Bus<E>, thread: nat, campaign: string, event: E, order: seq<nat>)
    requires WellFormed(b)
    ensures StepPublish(b, thread, campaign, event, order).attached == b.attached
  {
    hide StepPublish;
    if thread in b.todo || !Enumerates(order, Members(b, campaign)) || order == [] {
      IdlePublish(b, thread, campaign, event, order);
    } else {
      PublishEach(b, thread, campaign, event, order);
    }
  }
}
