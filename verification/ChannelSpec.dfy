/** The ref-counted SSE channel store as a transition system.

    Everything outside the store that can act on it is a step: React subscribing
    and unsubscribing, the browser delivering an open, an error or a message on an
    EventSource, a timer firing, an `apply` closure being run, the clock moving.
    A step that its environment cannot take (an event on a closed EventSource, a
    cleared timer, an unsubscribe already called) leaves the world as it is, so
    that a run is any sequence of steps at all. */
module ChannelSpec {
  import opened Options

  const MAX_CONSECUTIVE_ERRORS: nat := 3
  const STARTUP_GRACE_MS: nat := 5_000
  const RECONNECT_INITIAL_DELAY_MS: nat := 10_000
  const RECONNECT_MAX_DELAY_MS: nat := 300_000

  // SseChannelBaseState plus whatever the domain hook keeps.
  datatype Link<!D> = Link(connected: bool, dead: bool, data: D)

  datatype Config<!D, !F, !C> = Config(
    initial: Link<D>,
    defaultContext: C,
    reduce: (Link<D>, F, C) -> Link<D>,
    onDead: Link<D> -> Link<D>,
    hasEventSource: bool)

  datatype Chan<!D, !C> = Chan(
    key: string,
    state: Link<D>,
    source: Option<nat>,
    context: C,
    errors: nat,
    mountedAt: nat,
    notifiers: set<nat>,
    refCount: int,
    timer: Option<nat>,
    delayMs: nat)

  // What a closure captured: the key it was made for and the channel object.
  datatype Holder = Holder(key: string, chan: nat)
  datatype Timer = Timer(holder: Holder, delayMs: nat, due: nat)
  datatype Sub = Sub(holder: Holder, notifier: nat)

  datatype World<!D, !C> = World(
    now: nat,
    channels: map<string, nat>,   // the store's Map: key to channel identity
    chans: seq<Chan<D, C>>,       // every channel object ever made, by identity
    open: map<nat, Holder>,       // EventSources not yet closed
    timers: map<nat, Timer>,      // timeouts neither fired nor cleared
    subs: map<nat, Sub>,          // unsubscribe functions not yet called
    tickets: seq<Holder>,         // `apply` closures handed to onOpen, one per open
    notices: seq<set<nat>>,       // who was notified, in order
    nextSource: nat,
    nextTimer: nat,
    nextSub: nat)

  datatype Event<!D, !F, !C> =
    | Subscribe(key: string, notifier: nat, context: Option<C>)
    | Unsubscribe(sub: nat)
    | Opened(source: nat)
    | Errored(source: nat)
    | Message(source: nat, frame: Option<F>)   // None: the frame did not parse
    | Fire(timer: nat)
    | Apply(ticket: nat, fn: Link<D> -> Link<D>)
    | Update(target: string, fn: Link<D> -> Link<D>)
    | Tick(ms: nat)

  function Init<D, C>(): World<D, C> {
    World(0, map[], [], map[], map[], map[], [], [], 0, 0, 0)
  }

  predicate Mapped<D, C>(w: World<D, C>, id: nat) {
    id < |w.chans| && w.chans[id].key in w.channels && w.channels[w.chans[id].key] == id
  }

  function SetChan<D, C>(w: World<D, C>, id: nat, ch: Chan<D, C>): World<D, C>
    requires id < |w.chans|
  {
    w.(chans := w.chans[id := ch])
  }

  function Notify<D, C>(w: World<D, C>, id: nat): World<D, C>
    requires id < |w.chans|
  {
    w.(notices := w.notices + [w.chans[id].notifiers])
  }

  function Connect<D, C>(w: World<D, C>, key: string, id: nat): World<D, C>
    requires id < |w.chans|
  {
    SetChan(w, id, w.chans[id].(source := Some(w.nextSource)))
    .(open := w.open[w.nextSource := Holder(key, id)], nextSource := w.nextSource + 1)
  }

  function Doubled(delayMs: nat): nat {
    if delayMs * 2 < RECONNECT_MAX_DELAY_MS then delayMs * 2 else RECONNECT_MAX_DELAY_MS
  }

  function ScheduleReconnect<D, C>(w: World<D, C>, key: string, id: nat): World<D, C>
    requires id < |w.chans|
  {
    var ch := w.chans[id];
    if ch.timer.Some? then w
    else
      SetChan(w, id, ch.(timer := Some(w.nextTimer), delayMs := Doubled(ch.delayMs)))
      .(timers := w.timers[w.nextTimer := Timer(Holder(key, id), ch.delayMs, w.now + ch.delayMs)],
        nextTimer := w.nextTimer + 1)
  }

  function NewChan<D, F, C>(cfg: Config<D, F, C>, key: string, context: C, now: nat): Chan<D, C> {
    Chan(key, cfg.initial, None, context, 0, now, {}, 1, None, RECONNECT_INITIAL_DELAY_MS)
  }

  function OpenChannel<D, F, C>(cfg: Config<D, F, C>, w: World<D, C>, key: string, context: C): (r: (World<D, C>, nat))
    requires key in w.channels ==> w.channels[key] < |w.chans|
    ensures WellFormed(w) ==> WellFormed(r.0)
    ensures r.1 < |r.0.chans| && r.0.subs == w.subs && r.0.nextSub == w.nextSub
  {
    if key in w.channels then
      var id := w.channels[key];
      (SetChan(w, id, w.chans[id].(refCount := w.chans[id].refCount + 1)), id)
    else
      var id := |w.chans|;
      var w1 := w.(channels := w.channels[key := id], chans := w.chans + [NewChan(cfg, key, context, w.now)]);
      (if cfg.hasEventSource then Connect(w1, key, id) else w1, id)
  }

  function StepSubscribe<D, F, C>(cfg: Config<D, F, C>, w: World<D, C>, key: string, notifier: nat, context: Option<C>): (w': World<D, C>)
    requires WellFormed(w)
    ensures WellFormed(w')
  {
    var (w1, id) := OpenChannel(cfg, w, key, if context.Some? then context.value else cfg.defaultContext);
    Join(w1, key, id, notifier)
  }

  function Join<D, C>(w: World<D, C>, key: string, id: nat, notifier: nat): (w': World<D, C>)
    requires WellFormed(w) && id < |w.chans|
    ensures WellFormed(w')
  {
    SetChan(w, id, w.chans[id].(notifiers := w.chans[id].notifiers + {notifier}))
    .(subs := w.subs[w.nextSub := Sub(Holder(key, id), notifier)], nextSub := w.nextSub + 1)
  }

  function Only(id: Option<nat>): set<nat> {
    if id.Some? then {id.value} else {}
  }

  function ReleaseChannel<D, C>(w: World<D, C>, key: string): World<D, C>
    requires key in w.channels ==> w.channels[key] < |w.chans|
  {
    if key !in w.channels then w
    else
      var id := w.channels[key];
      var ch := w.chans[id].(refCount := w.chans[id].refCount - 1);
      if ch.refCount > 0 then SetChan(w, id, ch)
      else
        SetChan(w, id, ch.(source := None, timer := None))
        .(open := w.open - Only(ch.source), timers := w.timers - Only(ch.timer), channels := w.channels - {key})
  }

  function StepUnsubscribe<D, C>(w: World<D, C>, sub: nat): (w': World<D, C>)
    requires WellFormed(w)
    ensures WellFormed(w')
  {
    if sub !in w.subs then w
    else
      var Sub(holder, notifier) := w.subs[sub];
      var ch := w.chans[holder.chan];
      var w1 := SetChan(w, holder.chan, ch.(notifiers := ch.notifiers - {notifier})).(subs := w.subs - {sub});
      ReleaseChannel(w1, holder.key)
  }

  function StepOpened<D, C>(w: World<D, C>, source: nat): (w': World<D, C>)
    requires WellFormed(w)
    ensures WellFormed(w')
  {
    if source !in w.open then w
    else
      var h := w.open[source];
      var ch := w.chans[h.chan];
      Notify(SetChan(w, h.chan, ch.(
        errors := 0,
        delayMs := RECONNECT_INITIAL_DELAY_MS,
        state := ch.state.(connected := true, dead := false))), h.chan)
      .(tickets := w.tickets + [h])
  }

  // An error outside the grace window: counted, and fatal from the third on.
  predicate Counted<D, C>(w: World<D, C>, source: nat)
    requires WellFormed(w)
  {
    source in w.open && w.now - w.chans[w.open[source].chan].mountedAt >= STARTUP_GRACE_MS
  }

  // Confirmed dead: close the socket, let the hook drop what it can no longer
  // vouch for, and keep probing.
  function Die<D, F, C>(cfg: Config<D, F, C>, w: World<D, C>, source: nat, h: Holder): World<D, C>
    requires h.chan < |w.chans|
  {
    var ch := w.chans[h.chan];
    var dead := ch.(source := None, state := cfg.onDead(ch.state.(connected := false, dead := true)));
    ScheduleReconnect(SetChan(w, h.chan, dead).(open := w.open - {source}), h.key, h.chan)
  }

  function StepErrored<D, F, C>(cfg: Config<D, F, C>, w: World<D, C>, source: nat): (w': World<D, C>)
    requires WellFormed(w)
    ensures WellFormed(w')
  {
    if !Counted(w, source) then w
    else
      var h := w.open[source];
      var ch := w.chans[h.chan].(errors := w.chans[h.chan].errors + 1);
      if ch.errors >= MAX_CONSECUTIVE_ERRORS then
        Notify(Die(cfg, SetChan(w, h.chan, ch), source, h), h.chan)
      else
        Notify(SetChan(w, h.chan, ch.(state := ch.state.(connected := false))), h.chan)
  }

  function StepMessage<D, F, C>(cfg: Config<D, F, C>, w: World<D, C>, source: nat, frame: Option<F>): (w': World<D, C>)
    requires WellFormed(w)
    ensures WellFormed(w')
  {
    if source !in w.open || frame.None? then w
    else
      var id := w.open[source].chan;
      var ch := w.chans[id];
      Notify(SetChan(w, id, ch.(state := cfg.reduce(ch.state, frame.value, ch.context))), id)
  }

  function StepFire<D, F, C>(cfg: Config<D, F, C>, w: World<D, C>, timer: nat): (w': World<D, C>)
    requires WellFormed(w)
    ensures WellFormed(w')
  {
    if timer !in w.timers || w.now < w.timers[timer].due then w
    else
      var h := w.timers[timer].holder;
      var w1 := SetChan(w, h.chan, w.chans[h.chan].(timer := None)).(timers := w.timers - {timer});
      if h.key !in w1.channels || w1.channels[h.key] != h.chan || w1.chans[h.chan].source.Some? then w1
      else Connect(w1, h.key, h.chan)
  }

  function StepApply<D, C>(w: World<D, C>, ticket: nat, fn: Link<D> -> Link<D>): (w': World<D, C>)
    requires WellFormed(w)
    ensures WellFormed(w')
  {
    if ticket >= |w.tickets| then w
    else
      var h := w.tickets[ticket];
      if h.key !in w.channels || w.channels[h.key] != h.chan then w
      else Notify(SetChan(w, h.chan, w.chans[h.chan].(state := fn(w.chans[h.chan].state))), h.chan)
  }

  function StepUpdate<D, C>(w: World<D, C>, key: string, fn: Link<D> -> Link<D>): (w': World<D, C>)
    requires WellFormed(w)
    ensures WellFormed(w')
  {
    if key !in w.channels then w
    else
      var id := w.channels[key];
      Notify(SetChan(w, id, w.chans[id].(state := fn(w.chans[id].state))), id)
  }

  // Identities held anywhere name channels that exist.
  ghost predicate WellFormed<D, C>(w: World<D, C>) {
    && (forall k <- w.channels :: w.channels[k] < |w.chans|)
    && (forall s <- w.open :: w.open[s].chan < |w.chans|)
    && (forall t <- w.timers :: w.timers[t].holder.chan < |w.chans|)
    && (forall u <- w.subs :: w.subs[u].holder.chan < |w.chans|)
    && (forall i | 0 <= i < |w.tickets| :: w.tickets[i].chan < |w.chans|)
  }

  ghost function Step<D, F, C>(cfg: Config<D, F, C>, w: World<D, C>, e: Event<D, F, C>): (w': World<D, C>)
    requires WellFormed(w)
    ensures WellFormed(w')
  {
    match e
    case Subscribe(key, notifier, context) => StepSubscribe(cfg, w, key, notifier, context)
    case Unsubscribe(sub) => StepUnsubscribe(w, sub)
    case Opened(source) => StepOpened(w, source)
    case Errored(source) => StepErrored(cfg, w, source)
    case Message(source, frame) => StepMessage(cfg, w, source, frame)
    case Fire(timer) => StepFire(cfg, w, timer)
    case Apply(ticket, fn) => StepApply(w, ticket, fn)
    case Update(key, fn) => StepUpdate(w, key, fn)
    case Tick(ms) => w.(now := w.now + ms)
  }

  ghost function Run<D, F, C>(cfg: Config<D, F, C>, events: seq<Event<D, F, C>>): (w: World<D, C>)
    ensures WellFormed(w)
  {
    if events == [] then Init()
    else Step(cfg, Run(cfg, events[..|events| - 1]), events[|events| - 1])
  }

  // ---- What every run keeps ----

  ghost function Holding<D, C>(w: World<D, C>, id: nat): set<nat> {
    set u | u in w.subs && w.subs[u].holder.chan == id
  }

  // A closure that is still live points at the channel the store has under its key.
  ghost predicate Live<D, C>(w: World<D, C>, h: Holder) {
    Mapped(w, h.chan) && w.chans[h.chan].key == h.key
  }

  ghost predicate SourceOk<D, C>(w: World<D, C>, s: nat)
    requires s in w.open
  {
    s < w.nextSource && Live(w, w.open[s]) && w.chans[w.open[s].chan].source == Some(s)
  }

  ghost predicate TimerOk<D, C>(w: World<D, C>, t: nat)
    requires t in w.timers
  {
    t < w.nextTimer && Live(w, w.timers[t].holder) && w.chans[w.timers[t].holder.chan].timer == Some(t)
  }

  ghost predicate SubOk<D, C>(w: World<D, C>, u: nat)
    requires u in w.subs
  {
    u < w.nextSub && Live(w, w.subs[u].holder)
  }

  // Closures, sources and timers agree with the channels they belong to.
  ghost predicate Wired<D, C>(w: World<D, C>) {
    && WellFormed(w)
    && (forall k <- w.channels :: w.chans[w.channels[k]].key == k)
    && (forall s {:trigger SourceOk(w, s)} | s in w.open :: SourceOk(w, s))
    && (forall t {:trigger TimerOk(w, t)} | t in w.timers :: TimerOk(w, t))
    && (forall u {:trigger SubOk(w, u)} | u in w.subs :: SubOk(w, u))
    && (forall i | 0 <= i < |w.tickets| :: w.chans[w.tickets[i].chan].key == w.tickets[i].key)
  }

  // A mapped channel is held and has exactly one of a source and a pending probe;
  // a released one is not held and has neither.
  ghost predicate ChanWired<D, C>(w: World<D, C>, id: nat, hasEventSource: bool)
    requires id < |w.chans|
  {
    var ch := w.chans[id];
    && (ch.source.Some? ==> ch.source.value in w.open && w.open[ch.source.value].chan == id)
    && (ch.timer.Some? ==> ch.timer.value in w.timers && w.timers[ch.timer.value].holder.chan == id)
    && ch.refCount == |Holding(w, id)|
    && (if Mapped(w, id) then
          && ch.refCount >= 1
          && (if hasEventSource then ch.source.Some? <==> ch.timer.None? else ch.source.None? && ch.timer.None?)
        else
          && ch.source.None? && ch.timer.None? && ch.refCount == 0)
  }

  // Errors and backoff against the clock.
  ghost predicate Paced<D, C>(now: nat, ch: Chan<D, C>) {
    && ch.mountedAt <= now
    && RECONNECT_INITIAL_DELAY_MS <= ch.delayMs <= RECONNECT_MAX_DELAY_MS
    && (ch.errors > 0 ==> now >= ch.mountedAt + STARTUP_GRACE_MS)
    && (ch.timer.Some? ==> ch.errors >= MAX_CONSECUTIVE_ERRORS)
    && (ch.errors >= MAX_CONSECUTIVE_ERRORS || ch.delayMs == RECONNECT_INITIAL_DELAY_MS)
  }

  ghost predicate Inv<D, C>(w: World<D, C>, hasEventSource: bool) {
    && Wired(w)
    && (forall id | 0 <= id < |w.chans| :: ChanWired(w, id, hasEventSource))
    && (forall id | 0 <= id < |w.chans| :: Paced(w.now, w.chans[id]))
  }
}
