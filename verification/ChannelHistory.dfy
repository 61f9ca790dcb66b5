/** Statements about whole runs of the channel store: release is for ever, death
    takes three counted errors, probes back off exponentially, every change of
    state is announced to exactly the subscribers that are still there. */
module ChannelHistory {
  import opened Options
  import opened ChannelSpec
  import opened ChannelRuns

  ghost function Before<D, F, C>(cfg: Config<D, F, C>, events: seq<Event<D, F, C>>): World<D, C>
    requires events != []
  {
    Run(cfg, events[..|events| - 1])
  }

  // ---- A step touches one channel, and that one is mapped ----

  ghost function Target<D, F, C>(w: World<D, C>, e: Event<D, F, C>): Option<nat>
    requires WellFormed(w)
  {
    match e
    case Subscribe(key, _, _) => if key in w.channels then Some(w.channels[key]) else None
    case Unsubscribe(u) => if u in w.subs then Some(w.subs[u].holder.chan) else None
    case Opened(s) => if s in w.open then Some(w.open[s].chan) else None
    case Errored(s) => if Counted(w, s) then Some(w.open[s].chan) else None
    case Message(s, frame) => if s in w.open && frame.Some? then Some(w.open[s].chan) else None
    case Fire(t) => if t in w.timers && w.now >= w.timers[t].due then Some(w.timers[t].holder.chan) else None
    case Apply(t, _) => if t < |w.tickets| && Live(w, w.tickets[t]) then Some(w.tickets[t].chan) else None
    case Update(key, _) => if key in w.channels then Some(w.channels[key]) else None
    case Tick(_) => None
  }

  lemma TargetIsMapped<D, F, C>(w: World<D, C>, e: Event<D, F, C>)
    requires Wired(w) && Target(w, e).Some?
    ensures Mapped(w, Target(w, e).value)
  {
    match e
    case Unsubscribe(u) => assert SubOk(w, u);
    case Opened(s) => assert SourceOk(w, s);
    case Errored(s) => assert SourceOk(w, s);
    case Message(s, _) => assert SourceOk(w, s);
    case Fire(t) => assert TimerOk(w, t);
    case _ =>
  }

  ghost predicate Untouched<D, C>(w: World<D, C>, w': World<D, C>, id: nat)
    requires id < |w.chans|
  {
    && id < |w'.chans| && w'.chans[id] == w.chans[id]
    && Mapped(w', id) == Mapped(w, id)
    && forall t | t in w.timers && w.timers[t].holder.chan == id :: t in w'.timers && w'.timers[t] == w.timers[t]
  }

  lemma SubscribeLeavesOthers<D, F, C>(
      cfg: Config<D, F, C>, w: World<D, C>, key: string, notifier: nat, context: Option<C>, id: nat)
    requires Inv(w, cfg.hasEventSource) && id < |w.chans| && !(key in w.channels && w.channels[key] == id)
    ensures Untouched(w, StepSubscribe(cfg, w, key, notifier, context), id)
  {
    hide ChanWired, Paced, SubOk, SourceOk, TimerOk;
  }

  lemma UnsubscribeLeavesOthers<D, C>(w: World<D, C>, sub: nat, id: nat, hasEventSource: bool)
    requires Inv(w, hasEventSource) && id < |w.chans| && !(sub in w.subs && w.subs[sub].holder.chan == id)
    ensures Untouched(w, StepUnsubscribe(w, sub), id)
  {
    hide StepUnsubscribe, Inv;
    if sub in w.subs {
      UnsubscribeSparesOthers(w, sub, id, hasEventSource);
    } else {
      UnsubscribeKeepsPace(w, sub, hasEventSource);
    }
  }

  lemma BrowserLeavesOthers<D, F, C>(cfg: Config<D, F, C>, w: World<D, C>, e: Event<D, F, C>, id: nat)
    requires Inv(w, cfg.hasEventSource) && id < |w.chans| && Target(w, e) != Some(id)
    requires e.Opened? || e.Message? || e.Fire?
    ensures Untouched(w, Step(cfg, w, e), id)
  {
    hide StepSubscribe, StepUnsubscribe, StepErrored, StepApply, StepUpdate, ChanWired, Paced;
  }

  lemma ErrorLeavesOthers<D, F, C>(cfg: Config<D, F, C>, w: World<D, C>, source: nat, id: nat)
    requires Inv(w, cfg.hasEventSource) && id < |w.chans|
    requires !(Counted(w, source) && w.open[source].chan == id)
    ensures Untouched(w, StepErrored(cfg, w, source), id)
  {
    hide ChanWired, Paced, SourceOk, SubOk;
    assert w.nextTimer in w.timers ==> TimerOk(w, w.nextTimer);
  }

  lemma OthersUntouched<D, F, C>(cfg: Config<D, F, C>, w: World<D, C>, e: Event<D, F, C>, id: nat)
    requires Inv(w, cfg.hasEventSource) && id < |w.chans| && Target(w, e) != Some(id)
    ensures Untouched(w, Step(cfg, w, e), id)
  {
    match e
    case Subscribe(key, notifier, context) => SubscribeLeavesOthers(cfg, w, key, notifier, context, id);
    case Unsubscribe(sub) => UnsubscribeLeavesOthers(w, sub, id, cfg.hasEventSource);
    case Opened(_) => BrowserLeavesOthers(cfg, w, e, id);
    case Errored(source) => ErrorLeavesOthers(cfg, w, source, id);
    case Message(_, _) => BrowserLeavesOthers(cfg, w, e, id);
    case Fire(_) => BrowserLeavesOthers(cfg, w, e, id);
    case _ =>
  }

  // ---- A released channel stays released ----

  ghost predicate Released<D, C>(w: World<D, C>, id: nat) {
    id < |w.chans| && !Mapped(w, id)
  }

  lemma StepKeepsReleased<D, F, C>(cfg: Config<D, F, C>, w: World<D, C>, e: Event<D, F, C>, id: nat)
    requires Inv(w, cfg.hasEventSource) && Released(w, id)
    ensures Released(Step(cfg, w, e), id) && Step(cfg, w, e).chans[id] == w.chans[id]
  {
    hide Step;
    if Target(w, e).Some? {
      TargetIsMapped(w, e);
    }
    OthersUntouched(cfg, w, e, id);
  }

  lemma NothingHeldForReleased<D, C>(w: World<D, C>, id: nat, hasEventSource: bool)
    requires Inv(w, hasEventSource) && Released(w, id)
    ensures forall s | s in w.open :: w.open[s].chan != id
    ensures forall t | t in w.timers :: w.timers[t].holder.chan != id
  {
    forall s | s in w.open ensures w.open[s].chan != id {
      assert SourceOk(w, s);
    }
    forall t | t in w.timers ensures w.timers[t].holder.chan != id {
      assert TimerOk(w, t);
    }
  }

  // Whatever happens later, its record is never written again and nothing the
  // browser still holds refers to it, even if its key is opened again.
  lemma {:induction false} ReleasedForEver<D, F, C>(cfg: Config<D, F, C>, before: seq<Event<D, F, C>>, after: seq<Event<D, F, C>>, id: nat)
    requires Released(Run(cfg, before), id)
    ensures Released(Run(cfg, before + after), id)
    ensures Run(cfg, before + after).chans[id] == Run(cfg, before).chans[id]
    ensures forall s | s in Run(cfg, before + after).open :: Run(cfg, before + after).open[s].chan != id
    ensures forall t | t in Run(cfg, before + after).timers :: Run(cfg, before + after).timers[t].holder.chan != id
  {
    hide Step, Inv;
    var all := before + after;
    if after == [] {
      assert all == before;
    } else {
      assert all[..|all| - 1] == before + after[..|after| - 1];
      ReleasedForEver(cfg, before, after[..|after| - 1], id);
      RunKeepsInv(cfg, all[..|all| - 1]);
      StepKeepsReleased(cfg, Before(cfg, all), all[|all| - 1], id);
    }
    RunKeepsInv(cfg, all);
    NothingHeldForReleased(Run(cfg, all), id, cfg.hasEventSource);
  }

  // ---- Errors, death and backoff ----

  // When the errors counted against a channel since it last opened happened.
  ghost function ErrorTimes<D, F, C>(cfg: Config<D, F, C>, events: seq<Event<D, F, C>>, id: nat): seq<nat> {
    if events == [] then []
    else
      var w := Before(cfg, events);
      var earlier := ErrorTimes(cfg, events[..|events| - 1], id);
      match events[|events| - 1]
      case Opened(s) => if s in w.open && w.open[s].chan == id then [] else earlier
      case Errored(s) => if Counted(w, s) && w.open[s].chan == id then earlier + [w.now] else earlier
      case _ => earlier
  }

  function Pow2(k: nat): nat {
    if k == 0 then 1 else 2 * Pow2(k - 1)
  }

  // The wait before the probe that follows k failed probes in a row.
  function Backoff(k: nat): nat {
    if RECONNECT_INITIAL_DELAY_MS * Pow2(k) < RECONNECT_MAX_DELAY_MS
    then RECONNECT_INITIAL_DELAY_MS * Pow2(k)
    else RECONNECT_MAX_DELAY_MS
  }

  lemma DoubledBackoff(k: nat)
    ensures Doubled(Backoff(k)) == Backoff(k + 1)
  {
  }

  ghost predicate OnSchedule<D, C>(w: World<D, C>, id: nat, times: seq<nat>)
    requires id < |w.chans|
  {
    var ch := w.chans[id];
    && |times| == ch.errors
    && (forall i | 0 <= i < |times| :: ch.mountedAt + STARTUP_GRACE_MS <= times[i] <= w.now)
    && ch.delayMs == (if |times| < MAX_CONSECUTIVE_ERRORS then RECONNECT_INITIAL_DELAY_MS else Backoff(|times| - 2))
    && (ch.timer.Some? && ch.timer.value in w.timers ==>
          && |times| >= MAX_CONSECUTIVE_ERRORS
          && w.timers[ch.timer.value].due == times[|times| - 1] + Backoff(|times| - MAX_CONSECUTIVE_ERRORS))
  }

  lemma ErrorOnSchedule<D, F, C>(cfg: Config<D, F, C>, w: World<D, C>, source: nat, times: seq<nat>)
    requires Inv(w, cfg.hasEventSource) && Counted(w, source)
    requires OnSchedule(w, w.open[source].chan, times)
    ensures |StepErrored(cfg, w, source).chans| == |w.chans|
    ensures OnSchedule(StepErrored(cfg, w, source), w.open[source].chan, times + [w.now])
  {
    assert SourceOk(w, source) && ChanWired(w, w.open[source].chan, cfg.hasEventSource);
    if |times| >= MAX_CONSECUTIVE_ERRORS {
      DoubledBackoff(|times| - 2);
    }
  }

  lemma OpenOnSchedule<D, C>(w: World<D, C>, source: nat, hasEventSource: bool)
    requires Inv(w, hasEventSource) && source in w.open
    ensures |StepOpened(w, source).chans| == |w.chans|
    ensures OnSchedule(StepOpened(w, source), w.open[source].chan, [])
  {
    assert SourceOk(w, source) && ChanWired(w, w.open[source].chan, hasEventSource);
  }

  // A step on this channel that is neither an open nor a counted error.
  lemma ReleaseOnSchedule<D, C>(w: World<D, C>, sub: nat, times: seq<nat>, hasEventSource: bool)
    requires Inv(w, hasEventSource) && sub in w.subs
    requires w.subs[sub].holder.chan < |w.chans| && OnSchedule(w, w.subs[sub].holder.chan, times)
    ensures w.subs[sub].holder.chan < |StepUnsubscribe(w, sub).chans|
    ensures OnSchedule(StepUnsubscribe(w, sub), w.subs[sub].holder.chan, times)
  {
    assert SubOk(w, sub);
  }

  lemma OtherwiseOnSchedule<D, F, C>(cfg: Config<D, F, C>, w: World<D, C>, e: Event<D, F, C>, id: nat, times: seq<nat>)
    requires Inv(w, cfg.hasEventSource) && Target(w, e) == Some(id) && !e.Errored? && !e.Opened?
    requires id < |w.chans| && OnSchedule(w, id, times)
    ensures id < |Step(cfg, w, e).chans| && OnSchedule(Step(cfg, w, e), id, times)
  {
    hide StepUnsubscribe, StepOpened, StepErrored, ChanWired, Paced;
    match e
    case Unsubscribe(u) => ReleaseOnSchedule(w, u, times, cfg.hasEventSource);
    case Fire(t) => assert TimerOk(w, t);
    case _ =>
  }

  lemma UntouchedOnSchedule<D, C>(w: World<D, C>, w': World<D, C>, id: nat, times: seq<nat>, hasEventSource: bool)
    requires Inv(w, hasEventSource) && id < |w.chans| && OnSchedule(w, id, times)
    requires Untouched(w, w', id) && w'.now >= w.now
    ensures OnSchedule(w', id, times)
  {
    assert ChanWired(w, id, hasEventSource);
  }

  lemma TimePasses<D, F, C>(cfg: Config<D, F, C>, w: World<D, C>, e: Event<D, F, C>)
    requires WellFormed(w)
    ensures Step(cfg, w, e).now >= w.now
  {
  }

  lemma OnlySubscribeMakes<D, F, C>(cfg: Config<D, F, C>, w: World<D, C>, e: Event<D, F, C>)
    requires WellFormed(w) && !e.Subscribe?
    ensures |Step(cfg, w, e).chans| == |w.chans|
  {
    hide StepSubscribe, StepUnsubscribe, StepErrored;
    match e
    case Unsubscribe(sub) => UnsubscribeMakesNothing(w, sub);
    case Errored(source) => ErrorKeepsSubscribers(cfg, w, source);
    case _ =>
  }

  lemma UnsubscribeMakesNothing<D, C>(w: World<D, C>, sub: nat)
    requires WellFormed(w)
    ensures |StepUnsubscribe(w, sub).chans| == |w.chans|
  {
  }

  lemma MadeFresh<D, F, C>(cfg: Config<D, F, C>, w: World<D, C>, key: string, notifier: nat, context: Option<C>, id: nat)
    requires WellFormed(w) && |w.chans| <= id < |StepSubscribe(cfg, w, key, notifier, context).chans|
    ensures var ch := StepSubscribe(cfg, w, key, notifier, context).chans[id];
      && ch.errors == 0 && ch.timer == None && ch.delayMs == RECONNECT_INITIAL_DELAY_MS && ch.state == cfg.initial
  {
  }

  lemma NewOnSchedule<D, F, C>(cfg: Config<D, F, C>, w: World<D, C>, e: Event<D, F, C>, id: nat)
    requires WellFormed(w) && |w.chans| <= id < |Step(cfg, w, e).chans|
    ensures OnSchedule(Step(cfg, w, e), id, [])
  {
    hide StepSubscribe, StepUnsubscribe, StepOpened, StepErrored, StepMessage, StepFire, StepApply, StepUpdate;
    if e.Subscribe? {
      MadeFresh(cfg, w, e.key, e.notifier, e.context, id);
    } else {
      OnlySubscribeMakes(cfg, w, e);
    }
  }

  lemma StepOnSchedule<D, F, C>(cfg: Config<D, F, C>, events: seq<Event<D, F, C>>, id: nat)
    requires events != [] && id < |Before(cfg, events).chans|
    requires OnSchedule(Before(cfg, events), id, ErrorTimes(cfg, events[..|events| - 1], id))
    ensures id < |Run(cfg, events).chans| && OnSchedule(Run(cfg, events), id, ErrorTimes(cfg, events, id))
  {
    hide Inv, OnSchedule, Untouched;
    hide StepSubscribe, StepUnsubscribe, StepOpened, StepErrored, StepMessage, StepFire, StepApply, StepUpdate;
    var w, e := Before(cfg, events), events[|events| - 1];
    RunKeepsInv(cfg, events[..|events| - 1]);
    var earlier := ErrorTimes(cfg, events[..|events| - 1], id);
    if Target(w, e) != Some(id) {
      OthersUntouched(cfg, w, e, id);
      TimePasses(cfg, w, e);
      UntouchedOnSchedule(w, Step(cfg, w, e), id, earlier, cfg.hasEventSource);
    } else {
      match e
      case Opened(source) =>
        OpenOnSchedule(w, source, cfg.hasEventSource);
      case Errored(source) =>
        ErrorOnSchedule(cfg, w, source, earlier);
      case _ => OtherwiseOnSchedule(cfg, w, e, id, earlier);
    }
  }

  lemma {:induction false} RunOnSchedule<D, F, C>(cfg: Config<D, F, C>, events: seq<Event<D, F, C>>, id: nat)
    ensures id < |Run(cfg, events).chans| ==> OnSchedule(Run(cfg, events), id, ErrorTimes(cfg, events, id))
    ensures id >= |Run(cfg, events).chans| ==> ErrorTimes(cfg, events, id) == []
  {
    hide Step;
    if events != [] {
      RunOnSchedule(cfg, events[..|events| - 1], id);
      if id < |Before(cfg, events).chans| {
        StepOnSchedule(cfg, events, id);
      } else if id < |Run(cfg, events).chans| {
        RunKeepsInv(cfg, events[..|events| - 1]);
        NewOnSchedule(cfg, Before(cfg, events), events[|events| - 1], id);
      }
    }
  }

  // A channel that someone is watching and that has no EventSource has seen three
  // errors since it last opened, all outside the grace window, and its next probe
  // is due one backoff after the last of them.
  lemma DeathNeedsThreeErrors<D, F, C>(cfg: Config<D, F, C>, events: seq<Event<D, F, C>>, id: nat)
    requires cfg.hasEventSource
    requires Mapped(Run(cfg, events), id) && Run(cfg, events).chans[id].source.None?
    ensures
      var w, times := Run(cfg, events), ErrorTimes(cfg, events, id);
      && |times| >= MAX_CONSECUTIVE_ERRORS
      && (forall i | 0 <= i < |times| :: times[i] >= w.chans[id].mountedAt + STARTUP_GRACE_MS)
      && w.chans[id].timer.Some? && w.chans[id].timer.value in w.timers
      && w.timers[w.chans[id].timer.value].due == times[|times| - 1] + Backoff(|times| - MAX_CONSECUTIVE_ERRORS)
  {
    hide Step, Run;
    RunKeepsInv(cfg, events);
    RunOnSchedule(cfg, events, id);
    assert ChanWired(Run(cfg, events), id, cfg.hasEventSource);
  }

  // A probe that fails is never absorbed by the grace window: it kills the channel
  // at once and doubles the wait up to the ceiling.
  lemma ProbeFailureIsFatal<D, F, C>(cfg: Config<D, F, C>, events: seq<Event<D, F, C>>, id: nat, source: nat)
    requires id < |Run(cfg, events).chans| && Run(cfg, events).chans[id].source == Some(source)
    requires |ErrorTimes(cfg, events, id)| >= MAX_CONSECUTIVE_ERRORS
    ensures
      var w := StepErrored(cfg, Run(cfg, events), source);
      && w.chans[id].source.None? && source !in w.open
      && w.chans[id].timer.Some? && w.chans[id].timer.value in w.timers
      && w.timers[w.chans[id].timer.value].due == w.now + Backoff(|ErrorTimes(cfg, events, id)| - 2)
  {
    hide Step, Run;
    RunKeepsInv(cfg, events);
    RunOnSchedule(cfg, events, id);
    assert ChanWired(Run(cfg, events), id, cfg.hasEventSource);
    CountedErrorIsFatal(cfg, Run(cfg, events), source, ErrorTimes(cfg, events, id));
  }

  lemma CountedErrorIsFatal<D, F, C>(cfg: Config<D, F, C>, w: World<D, C>, source: nat, times: seq<nat>)
    requires Inv(w, cfg.hasEventSource) && source in w.open
    requires OnSchedule(w, w.open[source].chan, times) && |times| >= MAX_CONSECUTIVE_ERRORS
    ensures
      var w', id := StepErrored(cfg, w, source), w.open[source].chan;
      && w'.now == w.now && w'.chans[id].source.None? && source !in w'.open
      && w'.chans[id].timer.Some? && w'.chans[id].timer.value in w'.timers
      && w'.timers[w'.chans[id].timer.value].due == w.now + Backoff(|times| - 2)
  {
    assert SourceOk(w, source) && ChanWired(w, w.open[source].chan, cfg.hasEventSource);
  }

  // ---- Who is told ----

  ghost predicate Announced<D, C>(w: World<D, C>, w': World<D, C>, id: nat)
    requires id < |w.chans|
  {
    w'.notices == w.notices + [w.chans[id].notifiers]
  }

  lemma LoudStepIsAnnounced<D, F, C>(cfg: Config<D, F, C>, w: World<D, C>, e: Event<D, F, C>, id: nat)
    requires WellFormed(w) && Target(w, e) == Some(id) && id < |w.chans|
    requires e.Opened? || e.Message? || e.Apply? || e.Update?
    ensures Announced(w, Step(cfg, w, e), id)
  {
  }

  lemma ErrorIsAnnounced<D, F, C>(cfg: Config<D, F, C>, w: World<D, C>, source: nat)
    requires WellFormed(w) && Counted(w, source)
    ensures Announced(w, StepErrored(cfg, w, source), w.open[source].chan)
  {
  }

  lemma CallKeepsState<D, F, C>(cfg: Config<D, F, C>, w: World<D, C>, e: Event<D, F, C>, id: nat)
    requires WellFormed(w) && id < |w.chans| && (e.Subscribe? || e.Unsubscribe?)
    ensures id < |Step(cfg, w, e).chans| && Step(cfg, w, e).chans[id].state == w.chans[id].state
  {
    hide StepOpened, StepErrored, StepMessage, StepFire, StepApply, StepUpdate;
  }

  lemma FireKeepsState<D, F, C>(cfg: Config<D, F, C>, w: World<D, C>, timer: nat, id: nat)
    requires WellFormed(w) && id < |w.chans|
    ensures id < |StepFire(cfg, w, timer).chans| && StepFire(cfg, w, timer).chans[id].state == w.chans[id].state
  {
  }

  // A change to a channel's state is announced, once, to everyone registered on it.
  lemma ChangeIsAnnounced<D, F, C>(cfg: Config<D, F, C>, w: World<D, C>, e: Event<D, F, C>, id: nat)
    requires Inv(w, cfg.hasEventSource) && id < |w.chans| <= |Step(cfg, w, e).chans|
    requires Step(cfg, w, e).chans[id].state != w.chans[id].state
    ensures Mapped(w, id)
    ensures Step(cfg, w, e).notices == w.notices + [w.chans[id].notifiers]
  {
    hide StepSubscribe, StepUnsubscribe, StepOpened, StepErrored, StepMessage, StepFire, StepApply, StepUpdate;
    if Target(w, e) != Some(id) {
      OthersUntouched(cfg, w, e, id);
    } else {
      TargetIsMapped(w, e);
      match e
      case Subscribe(_, _, _) => CallKeepsState(cfg, w, e, id);
      case Unsubscribe(_) => CallKeepsState(cfg, w, e, id);
      case Fire(timer) => FireKeepsState(cfg, w, timer, id);
      case Errored(source) => ErrorIsAnnounced(cfg, w, source);
      case _ => LoudStepIsAnnounced(cfg, w, e, id);
    }
  }

  // ---- The notifier set is the set of outstanding subscribers ----

  ghost function Watchers<D, C>(w: World<D, C>, id: nat): set<nat> {
    set u | u in w.subs && w.subs[u].holder.chan == id :: w.subs[u].notifier
  }

  ghost predicate Registered<D, C>(w: World<D, C>) {
    forall id | 0 <= id < |w.chans| :: w.chans[id].notifiers == Watchers(w, id)
  }

  // Two outstanding subscriptions to one channel with one callback.
  predicate Shared<D, C>(w: World<D, C>, u: nat, v: nat) {
    && u in w.subs && v in w.subs && u != v
    && w.subs[u].holder.chan == w.subs[v].holder.chan && w.subs[u].notifier == w.subs[v].notifier
  }

  ghost predicate Silences<D, F, C>(w: World<D, C>, e: Event<D, F, C>) {
    e.Unsubscribe? && exists v :: Shared(w, e.sub, v)
  }

  lemma WatchersGrow<D, C>(w: World<D, C>, w': World<D, C>, sub: Sub, i: nat)
    requires w.nextSub !in w.subs && w'.subs == w.subs[w.nextSub := sub]
    ensures Watchers(w', i) == Watchers(w, i) + if i == sub.holder.chan then {sub.notifier} else {}
  {
    forall u | u in w.subs && w.subs[u].holder.chan == i ensures w.subs[u].notifier in Watchers(w', i) {
      assert w'.subs[u] == w.subs[u];
    }
    if i == sub.holder.chan {
      assert w'.subs[w.nextSub].notifier in Watchers(w', i);
    }
  }

  // A callback somebody else shares stays among the watchers.
  lemma WatchersShrink<D, C>(w: World<D, C>, w': World<D, C>, sub: nat, i: nat)
    requires sub in w.subs && w'.subs == w.subs - {sub}
    ensures Watchers(w', i) == Watchers(w, i) -
      if i == w.subs[sub].holder.chan && !(exists v :: Shared(w, sub, v)) then {w.subs[sub].notifier} else {}
  {
    var gone := if i == w.subs[sub].holder.chan && !(exists v :: Shared(w, sub, v)) then {w.subs[sub].notifier} else {};
    forall n
      ensures n in Watchers(w', i) <==> n in Watchers(w, i) - gone
    {
      if n in Watchers(w', i) {
        var u :| u in w'.subs && w'.subs[u].holder.chan == i && w'.subs[u].notifier == n;
        assert w.subs[u] == w'.subs[u];
        assert i == w.subs[sub].holder.chan && n == w.subs[sub].notifier ==> Shared(w, sub, u);
      }
      if n in Watchers(w, i) - gone {
        var u :| u in w.subs && w.subs[u].holder.chan == i && w.subs[u].notifier == n;
        if u == sub {
          var v :| Shared(w, sub, v);
          assert w'.subs[v].notifier == n;
        } else {
          assert w'.subs[u] == w.subs[u];
        }
      }
    }
  }

  lemma SubscribeKeepsRegistered<D, F, C>(cfg: Config<D, F, C>, w: World<D, C>, key: string, notifier: nat, context: Option<C>)
    requires Inv(w, cfg.hasEventSource) && Registered(w)
    ensures Registered(StepSubscribe(cfg, w, key, notifier, context))
  {
    hide ChanWired, Paced;
    var w' := StepSubscribe(cfg, w, key, notifier, context);
    assert w.nextSub in w.subs ==> SubOk(w, w.nextSub);
    forall i | 0 <= i < |w'.chans| ensures w'.chans[i].notifiers == Watchers(w', i) {
      WatchersGrow(w, w', w'.subs[w.nextSub], i);
      assert i == |w.chans| ==> Watchers(w, i) == {};
    }
  }

  lemma LeaverIsRemoved<D, C>(w: World<D, C>, sub: nat, i: nat)
    requires WellFormed(w) && sub in w.subs && i < |w.chans|
    ensures var w' := StepUnsubscribe(w, sub);
      && |w'.chans| == |w.chans| && w'.subs == w.subs - {sub}
      && w'.chans[i].notifiers ==
        w.chans[i].notifiers - if i == w.subs[sub].holder.chan then {w.subs[sub].notifier} else {}
  {
  }

  lemma UnsubscribeKeepsRegistered<D, C>(w: World<D, C>, sub: nat)
    requires WellFormed(w) && Registered(w) && sub in w.subs
    ensures Registered(StepUnsubscribe(w, sub)) <==> !(exists v :: Shared(w, sub, v))
  {
    hide StepUnsubscribe, Watchers, Shared, WellFormed;
    var w' := StepUnsubscribe(w, sub);
    var id := w.subs[sub].holder.chan;
    HolderInRange(w, sub);
    LeaverIsRemoved(w, sub, id);
    forall i | 0 <= i < |w.chans|
      ensures w'.chans[i].notifiers == Watchers(w', i) <==> i != id || !(exists v :: Shared(w, sub, v))
    {
      LeaverIsRemoved(w, sub, i);
      WatchersShrink(w, w', sub, i);
      assert w.subs[sub].notifier in Watchers(w, id) by { WatcherIn(w, sub); }
    }
  }

  lemma HolderInRange<D, C>(w: World<D, C>, sub: nat)
    requires WellFormed(w) && sub in w.subs
    ensures w.subs[sub].holder.chan < |w.chans|
  {
  }

  lemma WatcherIn<D, C>(w: World<D, C>, sub: nat)
    requires sub in w.subs
    ensures w.subs[sub].notifier in Watchers(w, w.subs[sub].holder.chan)
  {
  }

  ghost predicate SameSubscribers<D, C>(w: World<D, C>, w': World<D, C>) {
    && w'.subs == w.subs && |w'.chans| == |w.chans|
    && forall i | 0 <= i < |w.chans| :: w'.chans[i].notifiers == w.chans[i].notifiers
  }

  lemma ErrorKeepsSubscribers<D, F, C>(cfg: Config<D, F, C>, w: World<D, C>, source: nat)
    requires WellFormed(w)
    ensures SameSubscribers(w, StepErrored(cfg, w, source))
  {
  }

  lemma OtherStepsKeepSubscribers<D, F, C>(cfg: Config<D, F, C>, w: World<D, C>, e: Event<D, F, C>)
    requires WellFormed(w) && !e.Subscribe? && !e.Unsubscribe?
    ensures SameSubscribers(w, Step(cfg, w, e))
  {
    hide StepSubscribe, StepUnsubscribe, StepErrored;
    if e.Errored? {
      ErrorKeepsSubscribers(cfg, w, e.source);
    }
  }

  // One kind of step takes a subscriber's callback away from it: another subscriber that
  // shares it leaves.
  lemma KeptUnlessShared<D, F, C>(cfg: Config<D, F, C>, w: World<D, C>, e: Event<D, F, C>)
    requires Inv(w, cfg.hasEventSource) && Registered(w)
    ensures Registered(Step(cfg, w, e)) <==> !Silences(w, e)
  {
    hide StepSubscribe, StepUnsubscribe, StepOpened, StepErrored, StepMessage, StepFire, StepApply, StepUpdate;
    hide Inv, WellFormed;
    InRange(w, cfg.hasEventSource);
    match e
    case Subscribe(key, notifier, context) => SubscribeKeepsRegistered(cfg, w, key, notifier, context);
    case Unsubscribe(sub) =>
      if sub in w.subs {
        UnsubscribeKeepsRegistered(w, sub);
      } else {
        UnsubscribeKeepsPace(w, sub, cfg.hasEventSource);
      }
    case _ =>
      OtherStepsKeepSubscribers(cfg, w, e);
      forall i | 0 <= i < |w.chans| ensures Watchers(Step(cfg, w, e), i) == Watchers(w, i) {
      }
  }

  lemma {:induction false} NotifiersAreSubscribers<D, F, C>(cfg: Config<D, F, C>, events: seq<Event<D, F, C>>)
    requires forall i | 0 <= i < |events| :: !Silences(Run(cfg, events[..i]), events[i])
    ensures Registered(Run(cfg, events))
  {
    hide Step, Silences;
    if events != [] {
      var earlier := events[..|events| - 1];
      forall i | 0 <= i < |earlier| ensures !Silences(Run(cfg, earlier[..i]), earlier[i]) {
        assert earlier[..i] == events[..i];
      }
      NotifiersAreSubscribers(cfg, earlier);
      RunKeepsInv(cfg, earlier);
      KeptUnlessShared(cfg, Run(cfg, earlier), events[|events| - 1]);
    }
  }

  // What a caller can see to: nobody subscribes with a callback that is already registered
  // under the key.
  ghost predicate FreshNotifier<D, F, C>(w: World<D, C>, e: Event<D, F, C>) {
    e.Subscribe? ==> forall u | u in w.subs && w.subs[u].holder.key == e.key :: w.subs[u].notifier != e.notifier
  }

  ghost predicate Distinct<D, C>(w: World<D, C>) {
    forall u, v :: !Shared(w, u, v)
  }

  lemma SubscribeKeepsDistinct<D, F, C>(cfg: Config<D, F, C>, w: World<D, C>, key: string, notifier: nat, context: Option<C>)
    requires Inv(w, cfg.hasEventSource) && Distinct(w)
    requires forall u | u in w.subs && w.subs[u].holder.key == key :: w.subs[u].notifier != notifier
    ensures Distinct(StepSubscribe(cfg, w, key, notifier, context))
  {
    hide ChanWired, Paced;
    var w' := StepSubscribe(cfg, w, key, notifier, context);
    forall u | u in w.subs && w.subs[u].holder.chan == w'.subs[w.nextSub].holder.chan
      ensures w.subs[u].holder.key == key
    {
      assert SubOk(w, u);
    }
    forall u, v
      ensures !Shared(w', u, v)
    {
      assert !Shared(w, u, v);
    }
  }

  lemma {:induction false} FreshCallbacksSuffice<D, F, C>(cfg: Config<D, F, C>, events: seq<Event<D, F, C>>)
    requires forall i | 0 <= i < |events| :: FreshNotifier(Run(cfg, events[..i]), events[i])
    ensures Registered(Run(cfg, events)) && Distinct(Run(cfg, events))
  {
    hide Step, Shared, FreshNotifier;
    if events == [] {
      NobodyShares(cfg);
    } else {
      var earlier, e := events[..|events| - 1], events[|events| - 1];
      var w := Run(cfg, earlier);
      forall i | 0 <= i < |earlier| ensures FreshNotifier(Run(cfg, earlier[..i]), earlier[i]) {
        assert earlier[..i] == events[..i];
      }
      FreshCallbacksSuffice(cfg, earlier);
      RunKeepsInv(cfg, earlier);
      KeptUnlessShared(cfg, w, e);
      StepKeepsDistinct(cfg, w, e);
    }
  }

  lemma NobodyShares<D, F, C>(cfg: Config<D, F, C>)
    ensures Distinct(Run(cfg, [])) && Registered(Run(cfg, []))
  {
  }

  lemma StepKeepsDistinct<D, F, C>(cfg: Config<D, F, C>, w: World<D, C>, e: Event<D, F, C>)
    requires Inv(w, cfg.hasEventSource) && Distinct(w) && FreshNotifier(w, e)
    ensures Distinct(Step(cfg, w, e))
  {
    hide StepSubscribe, StepUnsubscribe, StepOpened, StepErrored, StepMessage, StepFire, StepApply, StepUpdate;
    hide Inv, WellFormed;
    InRange(w, cfg.hasEventSource);
    match e
    case Subscribe(key, notifier, context) => SubscribeKeepsDistinct(cfg, w, key, notifier, context);
    case Unsubscribe(sub) =>
      UnsubscribeKeepsPace(w, sub, cfg.hasEventSource);
      if sub in w.subs {
        HolderInRange(w, sub);
        LeaverIsRemoved(w, sub, w.subs[sub].holder.chan);
      }
      forall u, v
        ensures !Shared(Step(cfg, w, e), u, v)
      {
        assert !Shared(w, u, v);
      }
    case _ =>
      OtherStepsKeepSubscribers(cfg, w, e);
      forall u, v
        ensures !Shared(Step(cfg, w, e), u, v)
      {
        assert !Shared(w, u, v);
      }
  }

  lemma RunSnoc<D, F, C>(cfg: Config<D, F, C>, events: seq<Event<D, F, C>>, e: Event<D, F, C>)
    ensures Run(cfg, events + [e]) == Step(cfg, Run(cfg, events), e)
  {
    hide Step;
    assert (events + [e])[..|events|] == events;
  }

  // Two subscriptions that share a callback share its place in the set: the first
  // to leave silences the one that stays.
  lemma SharedNotifierIsSilenced<D, F, C>(cfg: Config<D, F, C>, key: string, notifier: nat)
    ensures
      var w := Run(cfg, [] + [Subscribe(key, notifier, None)] + [Subscribe(key, notifier, None)] + [Unsubscribe(0)]);
      && |w.chans| == 1 && Mapped(w, 0) && w.chans[0].refCount == 1 && w.chans[0].notifiers == {}
  {
    hide Step;
    var e := Subscribe(key, notifier, None);
    RunSnoc(cfg, [], e);
    RunSnoc(cfg, [] + [e], e);
    RunSnoc(cfg, [] + [e] + [e], Unsubscribe(0));
    FirstShares(cfg, key, notifier);
    NextShares(cfg, Run(cfg, [] + [e]), key, notifier);
    LeaverSilences(cfg, Run(cfg, [] + [e] + [e]), key, notifier);
  }

  // n subscriptions to one channel, all with the one callback.
  ghost predicate OneCallback<D, C>(w: World<D, C>, key: string, notifier: nat, n: nat) {
    && WellFormed(w) && |w.chans| == 1 && w.channels == map[key := 0]
    && w.chans[0].key == key && w.chans[0].refCount == n && w.chans[0].notifiers == {notifier}
    && w.nextSub == n && forall u: nat | u < n :: u in w.subs && w.subs[u] == Sub(Holder(key, 0), notifier)
  }

  lemma FirstShares<D, F, C>(cfg: Config<D, F, C>, key: string, notifier: nat)
    ensures OneCallback(Step(cfg, Run(cfg, []), Subscribe(key, notifier, None)), key, notifier, 1)
  {
  }

  lemma NextShares<D, F, C>(cfg: Config<D, F, C>, w: World<D, C>, key: string, notifier: nat)
    requires OneCallback(w, key, notifier, 1)
    ensures OneCallback(Step(cfg, w, Subscribe(key, notifier, None)), key, notifier, 2)
  {
  }

  lemma LeaverSilences<D, F, C>(cfg: Config<D, F, C>, w: World<D, C>, key: string, notifier: nat)
    requires OneCallback(w, key, notifier, 2)
    ensures var w' := Step(cfg, w, Unsubscribe(0));
      && |w'.chans| == 1 && Mapped(w', 0) && w'.chans[0].refCount == 1 && w'.chans[0].notifiers == {}
  {
  }
}
