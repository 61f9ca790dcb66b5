/** The per-campaign event bus as a transition system: publishes from any thread,
    registrations, releases, the loop's scheduled callbacks and the consumers'
    gets, interleaved one atomic step at a time. */
module EventBusSpec {
  import opened Options

  // The thread that runs the event loop; every other number is a worker thread.
  const LOOP: nat := 0

  datatype Item<E> = Item(thread: nat, event: E)
  datatype Removal<E> = Removal(item: Item<E>, consumed: bool)   // taken by the consumer, or dropped

  // One subscriber's asyncio.Queue, with the history that its contents must answer to.
  datatype Queue<E> = Queue(
    campaign: string,
    items: seq<Item<E>>,
    sent: seq<Item<E>>,        // published to it, in the order publishers took their snapshots
    enqueued: seq<Item<E>>,    // handed to put_nowait, in order
    removed: seq<Removal<E>>)  // left it, in order

  datatype Delivery<E> = Delivery(queue: nat, item: Item<E>)

  datatype Bus<E> = Bus(
    bufferSize: int,
    attached: bool,
    subscribers: map<string, set<nat>>,
    queues: seq<Queue<E>>,
    ready: seq<Delivery<E>>,              // call_soon_threadsafe callbacks, oldest first
    todo: map<nat, seq<Delivery<E>>>)     // what a worker inside publish has yet to schedule

  datatype BusEvent<E> =
    | Attach
    | Register(campaign: string)
    | Unsubscribe(queue: nat)
    | Publish(thread: nat, campaign: string, event: E, order: seq<nat>)
    | Schedule(thread: nat)
    | RunCallback
    | Get(queue: nat)

  function Init<E>(bufferSize: int): Bus<E> {
    Bus(bufferSize, false, map[], [], [], map[])
  }

  function Members<E>(b: Bus<E>, campaign: string): set<nat> {
    if campaign in b.subscribers then b.subscribers[campaign] else {}
  }

  // asyncio reads a maxsize of zero or less as no limit.
  predicate Full<E>(b: Bus<E>, q: Queue<E>) {
    b.bufferSize > 0 && |q.items| >= b.bufferSize
  }

  function Put<E>(q: Queue<E>, item: Item<E>): Queue<E> {
    q.(items := q.items + [item], enqueued := q.enqueued + [item])
  }

  function TakeFirst<E>(q: Queue<E>, consumed: bool): Queue<E>
    requires q.items != []
  {
    q.(items := q.items[1..], removed := q.removed + [Removal(q.items[0], consumed)])
  }

  // put_nowait, or drop the oldest and then put_nowait.
  function PutDroppingOldest<E>(b: Bus<E>, q: Queue<E>, item: Item<E>): Queue<E> {
    if !Full(b, q) then Put(q, item) else Put(TakeFirst(q, false), item)
  }

  function Enqueue<E>(b: Bus<E>, queue: nat, item: Item<E>): Bus<E>
    requires queue < |b.queues|
  {
    b.(queues := b.queues[queue := PutDroppingOldest(b, b.queues[queue], item)])
  }

  function Send<E>(q: Queue<E>, item: Item<E>): Queue<E> {
    q.(sent := q.sent + [item])
  }

  // The snapshot a publisher takes under the lock: every subscriber once, in the
  // unspecified order of the set.
  ghost predicate Enumerates(order: seq<nat>, members: set<nat>) {
    && (forall q <- members :: q in order)
    && (forall i | 0 <= i < |order| :: order[i] in members)
    && (forall i, j | 0 <= i < j < |order| :: order[i] != order[j])
  }

  function SendAll<E>(queues: seq<Queue<E>>, to: set<nat>, item: Item<E>): (r: seq<Queue<E>>)
    ensures |r| == |queues|
    ensures forall q | 0 <= q < |queues| :: r[q] == if q in to then Send(queues[q], item) else queues[q]
  {
    seq(|queues|, q requires 0 <= q < |queues| => if q in to then Send(queues[q], item) else queues[q])
  }

  ghost function EnqueueAll<E>(b: Bus<E>, order: seq<nat>, item: Item<E>): (b': Bus<E>)
    requires forall i | 0 <= i < |order| :: order[i] < |b.queues|
    ensures |b'.queues| == |b.queues|
  {
    if order == [] then b
    else EnqueueAll(b, order[..|order| - 1], item).(queues :=
      var earlier := EnqueueAll(b, order[..|order| - 1], item);
      earlier.queues[order[|order| - 1] := PutDroppingOldest(b, earlier.queues[order[|order| - 1]], item)])
  }

  function Deliveries<E>(order: seq<nat>, item: Item<E>): seq<Delivery<E>> {
    seq(|order|, i requires 0 <= i < |order| => Delivery(order[i], item))
  }

  ghost predicate Within<E>(bufferSize: int, q: Queue<E>) {
    bufferSize > 0 ==> |q.items| <= bufferSize
  }

  ghost predicate WellFormed<E>(b: Bus<E>) {
    && (forall q | 0 <= q < |b.queues| :: Within(b.bufferSize, b.queues[q]))
    && (forall c, q {:trigger q in b.subscribers[c]} | c in b.subscribers && q in b.subscribers[c] :: q < |b.queues| && b.queues[q].campaign == c)
    && (forall c <- b.subscribers :: b.subscribers[c] != {})
    && (forall i | 0 <= i < |b.ready| :: b.ready[i].queue < |b.queues| && b.ready[i].item.thread != LOOP)
    && (forall t, i | t in b.todo && 0 <= i < |b.todo[t]| ::
          b.todo[t][i].queue < |b.queues| && b.todo[t][i].item.thread == t)
    && LOOP !in b.todo
    && (!b.attached ==> b.ready == [] && b.todo == map[])
  }

  lemma MembersExist<E>(b: Bus<E>, campaign: string)
    requires WellFormed(b)
    ensures forall q | q in Members(b, campaign) :: q < |b.queues| && b.queues[q].campaign == campaign
  {
  }

  ghost function StepPublish<E>(b: Bus<E>, thread: nat, campaign: string, event: E, order: seq<nat>): Bus<E>
    requires WellFormed(b)
  {
    if thread in b.todo || !Enumerates(order, Members(b, campaign)) || order == [] then b
    else
      var item := Item(thread, event);
      MembersExist(b, campaign);
      var b1 := b.(queues := SendAll(b.queues, Members(b, campaign), item));
      if !b.attached || thread == LOOP then EnqueueAll(b1, order, item)
      else b1.(todo := b.todo[thread := Deliveries(order, item)])
  }

  ghost function StepUnsubscribe<E>(b: Bus<E>, queue: nat): Bus<E> {
    if queue >= |b.queues| || b.queues[queue].campaign !in b.subscribers then b
    else
      var c := b.queues[queue].campaign;
      var left := b.subscribers[c] - {queue};
      b.(subscribers := if left == {} then b.subscribers - {c} else b.subscribers[c := left])
  }

  ghost function StepRegister<E>(b: Bus<E>, campaign: string): Bus<E> {
    b.(queues := b.queues + [Queue(campaign, [], [], [], [])],
       subscribers := b.subscribers[campaign := Members(b, campaign) + {|b.queues|}])
  }

  ghost function StepSchedule<E>(b: Bus<E>, thread: nat): Bus<E> {
    if thread !in b.todo then b
    else if b.todo[thread] == [] then b.(todo := b.todo - {thread})
    else b.(ready := b.ready + [b.todo[thread][0]], todo := b.todo[thread := b.todo[thread][1..]])
  }

  ghost function StepRunCallback<E>(b: Bus<E>): Bus<E>
    requires WellFormed(b)
  {
    if b.ready == [] then b
    else Enqueue(b, b.ready[0].queue, b.ready[0].item).(ready := b.ready[1..])
  }

  ghost function StepGet<E>(b: Bus<E>, queue: nat): Bus<E> {
    if queue >= |b.queues| || b.queues[queue].items == [] then b
    else b.(queues := b.queues[queue := TakeFirst(b.queues[queue], true)])
  }

  ghost function Step<E>(b: Bus<E>, e: BusEvent<E>): (b': Bus<E>)
    requires WellFormed(b)
  {
    match e
    case Attach => b.(attached := true)
    case Register(campaign) => StepRegister(b, campaign)
    case Unsubscribe(queue) => StepUnsubscribe(b, queue)
    case Publish(thread, campaign, event, order) => StepPublish(b, thread, campaign, event, order)
    case Schedule(thread) => StepSchedule(b, thread)
    case RunCallback => StepRunCallback(b)
    case Get(queue) => StepGet(b, queue)
  }

  // What EnqueueAll does to each queue: one put to each it names.
  lemma {:induction false} EnqueueAllEach<E>(b: Bus<E>, order: seq<nat>, item: Item<E>)
    requires forall i | 0 <= i < |order| :: order[i] < |b.queues|
    requires forall i, j | 0 <= i < j < |order| :: order[i] != order[j]
    ensures EnqueueAll(b, order, item) == b.(queues := EnqueueAll(b, order, item).queues)
    ensures forall q | 0 <= q < |b.queues| ::
      EnqueueAll(b, order, item).queues[q] == if q in order then PutDroppingOldest(b, b.queues[q], item) else b.queues[q]
  {
    if order != [] {
      EnqueueAllEach(b, order[..|order| - 1], item);
    }
  }

  lemma PublishEach<E>(b: Bus<E>, thread: nat, campaign: string, event: E, order: seq<nat>)
    requires WellFormed(b)
    requires thread !in b.todo && Enumerates(order, Members(b, campaign)) && order != []
    ensures
      var b', item, members := StepPublish(b, thread, campaign, event, order), Item(thread, event), Members(b, campaign);
      && b' == b.(queues := b'.queues, todo := b'.todo) && |b'.queues| == |b.queues|
      && (forall q | 0 <= q < |b.queues| :: b'.queues[q] ==
            if q !in members then b.queues[q]
            else if !b.attached || thread == LOOP then PutDroppingOldest(b, Send(b.queues[q], item), item)
            else Send(b.queues[q], item))
      && b'.todo == if !b.attached || thread == LOOP then b.todo else b.todo[thread := Deliveries(order, item)]
  {
    MembersExist(b, campaign);
    if !b.attached || thread == LOOP {
      EnqueueAllEach(b.(queues := SendAll(b.queues, Members(b, campaign), Item(thread, event))), order, Item(thread, event));
    }
  }

  lemma PublishKeepsWellFormed<E>(b: Bus<E>, thread: nat, campaign: string, event: E, order: seq<nat>)
    requires WellFormed(b)
    ensures WellFormed(StepPublish(b, thread, campaign, event, order))
  {
    hide StepPublish;
    if thread in b.todo || !Enumerates(order, Members(b, campaign)) || order == [] {
      IdlePublish(b, thread, campaign, event, order);
    } else {
      MembersExist(b, campaign);
      PublishEach(b, thread, campaign, event, order);
    }
  }

  lemma IdlePublish<E>(b: Bus<E>, thread: nat, campaign: string, event: E, order: seq<nat>)
    requires WellFormed(b)
    requires thread in b.todo || !Enumerates(order, Members(b, campaign)) || order == []
    ensures StepPublish(b, thread, campaign, event, order) == b
  {
  }

  lemma RegisterKeepsWellFormed<E>(b: Bus<E>, campaign: string)
    requires WellFormed(b)
    ensures WellFormed(StepRegister(b, campaign))
  {
  }

  lemma UnsubscribeKeepsWellFormed<E>(b: Bus<E>, queue: nat)
    requires WellFormed(b)
    ensures WellFormed(StepUnsubscribe(b, queue))
  {
  }

  lemma ScheduleKeepsWellFormed<E>(b: Bus<E>, thread: nat)
    requires WellFormed(b)
    ensures WellFormed(StepSchedule(b, thread))
  {
  }

  lemma CallbackKeepsWellFormed<E>(b: Bus<E>)
    requires WellFormed(b)
    ensures WellFormed(StepRunCallback(b))
  {
  }

  lemma GetKeepsWellFormed<E>(b: Bus<E>, queue: nat)
    requires WellFormed(b)
    ensures WellFormed(StepGet(b, queue))
  {
  }

  lemma StepKeepsWellFormed<E>(b: Bus<E>, e: BusEvent<E>)
    requires WellFormed(b)
    ensures WellFormed(Step(b, e))
  {
    hide StepPublish, StepRegister, StepUnsubscribe, StepSchedule, StepRunCallback, StepGet;
    match e
    case Publish(thread, campaign, event, order) => PublishKeepsWellFormed(b, thread, campaign, event, order);
    case Register(campaign) => RegisterKeepsWellFormed(b, campaign);
    case Unsubscribe(queue) => UnsubscribeKeepsWellFormed(b, queue);
    case Schedule(thread) => ScheduleKeepsWellFormed(b, thread);
    case RunCallback => CallbackKeepsWellFormed(b);
    case Get(queue) => GetKeepsWellFormed(b, queue);
    case Attach =>
  }

  ghost function Run<E>(bufferSize: int, events: seq<BusEvent<E>>): (b: Bus<E>)
    ensures WellFormed(b)
  {
    if events == [] then Init(bufferSize)
    else
      var b := Run(bufferSize, events[..|events| - 1]);
      StepKeepsWellFormed(b, events[|events| - 1]);
      Step(b, events[|events| - 1])
  }
}
