/** The channel store itself, written the way its closures update it, one field at
    a time, and proved against the transition system of ChannelSpec. A channel
    object is the record at its identity in `chans`; a closure that captured one
    holds that identity. */
module ChannelStore {
  import opened Options
  import opened ChannelSpec
  import opened ChannelRuns

  class SseChannelStore<!D, !F, !C> {
    const cfg: Config<D, F, C>
    var channels: map<string, nat>
    var chans: seq<Chan<D, C>>
    // The environment's side: its clock, and the sockets, timeouts, unsubscribe
    // functions and `apply` closures it still holds.
    var now: nat
    var open: map<nat, Holder>
    var timers: map<nat, Timer>
    var subs: map<nat, Sub>
    var tickets: seq<Holder>
    var notices: seq<set<nat>>
    var nextSource: nat
    var nextTimer: nat
    var nextSub: nat

    ghost function View(): World<D, C>
      reads this
    {
      World(now, channels, chans, open, timers, subs, tickets, notices, nextSource, nextTimer, nextSub)
    }

    ghost predicate Valid()
      reads this
    {
      Inv(View(), cfg.hasEventSource)
    }

    constructor (cfg: Config<D, F, C>)
      ensures Valid() && View() == Init() && this.cfg == cfg
    {
      this.cfg := cfg;
      channels, chans, now, open, timers, subs, tickets, notices := map[], [], 0, map[], map[], map[], [], [];
      nextSource, nextTimer, nextSub := 0, 0, 0;
    }

    // ---- The store's own helpers ----

    method Notify(id: nat)
      requires id < |chans|
      modifies this`notices
      ensures View() == ChannelSpec.Notify(old(View()), id)
    {
      notices := notices + [chans[id].notifiers];
    }

    method Connect(key: string, id: nat)
      requires id < |chans|
      modifies this`open, this`nextSource, this`chans
      ensures View() == ChannelSpec.Connect(old(View()), key, id)
    {
      var source := nextSource;
      nextSource := nextSource + 1;
      chans := chans[id := chans[id].(source := Some(source))];
      open := open[source := Holder(key, id)];
    }

    method ScheduleReconnect(key: string, id: nat)
      requires id < |chans|
      modifies this`timers, this`nextTimer, this`chans
      ensures |chans| == |old(chans)|
      ensures View() == ChannelSpec.ScheduleReconnect(old(View()), key, id)
    {
      if chans[id].timer.Some? {
        return;
      }
      var delay := chans[id].delayMs;
      chans := chans[id := chans[id].(
        delayMs := if delay * 2 < RECONNECT_MAX_DELAY_MS then delay * 2 else RECONNECT_MAX_DELAY_MS)];
      timers := timers[nextTimer := Timer(Holder(key, id), delay, now + delay)];
      chans := chans[id := chans[id].(timer := Some(nextTimer))];
      nextTimer := nextTimer + 1;
    }

    method Die(source: nat, key: string, id: nat)
      requires id < |chans|
      modifies this`open, this`timers, this`nextTimer, this`chans
      ensures |chans| == |old(chans)|
      ensures View() == ChannelSpec.Die(cfg, old(View()), source, Holder(key, id))
    {
      hide ChannelSpec.ScheduleReconnect;
      open := open - {source};
      chans := chans[id := chans[id].(source := None)];
      chans := chans[id := chans[id].(state := chans[id].state.(connected := false, dead := true))];
      chans := chans[id := chans[id].(state := cfg.onDead(chans[id].state))];
      assert chans == old(chans)[id := chans[id]];
      ScheduleReconnect(key, id);
    }

    method OpenChannel(key: string, context: C) returns (id: nat)
      requires key in channels ==> channels[key] < |chans|
      modifies this`channels, this`chans, this`open, this`nextSource
      ensures id < |chans| && (View(), id) == ChannelSpec.OpenChannel(cfg, old(View()), key, context)
    {
      if key in channels {
        id := channels[key];
        chans := chans[id := chans[id].(refCount := chans[id].refCount + 1)];
        return;
      }
      id := |chans|;
      chans := chans + [Chan(key, cfg.initial, None, context, 0, now, {}, 1, None, RECONNECT_INITIAL_DELAY_MS)];
      channels := channels[key := id];
      if cfg.hasEventSource {
        Connect(key, id);
      }
    }

    method ReleaseChannel(key: string)
      requires key in channels ==> channels[key] < |chans|
      modifies this`channels, this`chans, this`open, this`timers
      ensures View() == ChannelSpec.ReleaseChannel(old(View()), key)
    {
      if key !in channels {
        return;
      }
      var id := channels[key];
      chans := chans[id := chans[id].(refCount := chans[id].refCount - 1)];
      if chans[id].refCount <= 0 {
        if chans[id].source.Some? {
          open := open - {chans[id].source.value};
        }
        chans := chans[id := chans[id].(source := None)];
        if chans[id].timer.Some? {
          timers := timers - {chans[id].timer.value};
          chans := chans[id := chans[id].(timer := None)];
        }
        channels := channels - {key};
      }
    }

    // ---- What callers do ----

    method Subscribe(key: string, notifier: nat, context: Option<C>) returns (sub: nat)
      requires Valid()
      modifies this
      ensures Valid() && View() == StepSubscribe(cfg, old(View()), key, notifier, context)
      ensures sub == old(nextSub) && sub in subs
    {
      hide Inv, WellFormed, ChannelSpec.OpenChannel;
      InRange(View(), cfg.hasEventSource);
      SubscribeKeepsInv(cfg, View(), key, notifier, context);
      var id := OpenChannel(key, if context.Some? then context.value else cfg.defaultContext);
      chans := chans[id := chans[id].(notifiers := chans[id].notifiers + {notifier})];
      sub := nextSub;
      subs := subs[sub := Sub(Holder(key, id), notifier)];
      nextSub := nextSub + 1;
    }

    method Unsubscribe(sub: nat)
      requires Valid() && sub in subs
      modifies this
      ensures Valid() && View() == StepUnsubscribe(old(View()), sub)
    {
      hide Inv, WellFormed, ChannelSpec.ReleaseChannel;
      InRange(View(), cfg.hasEventSource);
      UnsubscribeKeepsInv(View(), sub, cfg.hasEventSource);
      var Sub(Holder(key, id), notifier) := subs[sub];
      chans := chans[id := chans[id].(notifiers := chans[id].notifiers - {notifier})];
      subs := subs - {sub};
      ReleaseChannel(key);
    }

    method GetState(key: string) returns (state: Option<Link<D>>)
      requires Valid()
      ensures state.Some? <==> key in channels
      ensures state.Some? ==> state.value == chans[channels[key]].state
    {
      state := if key in channels then Some(chans[channels[key]].state) else None;
    }

    method Update(key: string, fn: Link<D> -> Link<D>)
      requires Valid()
      modifies this
      ensures Valid() && View() == StepUpdate(old(View()), key, fn)
    {
      hide Inv, WellFormed;
      InRange(View(), cfg.hasEventSource);
      UpdateKeepsInv(View(), key, fn, cfg.hasEventSource);
      if key !in channels {
        return;
      }
      var id := channels[key];
      chans := chans[id := chans[id].(state := fn(chans[id].state))];
      Notify(id);
    }

    // ---- What the browser does ----

    method OnOpen(source: nat)
      requires Valid() && source in open
      modifies this
      ensures Valid() && View() == StepOpened(old(View()), source)
    {
      hide Inv, WellFormed;
      InRange(View(), cfg.hasEventSource);
      OpenedKeepsInv(View(), source, cfg.hasEventSource);
      var Holder(key, id) := open[source];
      chans := chans[id := chans[id].(errors := 0)];
      chans := chans[id := chans[id].(delayMs := RECONNECT_INITIAL_DELAY_MS)];
      chans := chans[id := chans[id].(state := chans[id].state.(connected := true, dead := false))];
      assert chans == old(chans)[id := chans[id]];
      Notify(id);
      tickets := tickets + [Holder(key, id)];
    }

    method OnError(source: nat)
      requires Valid() && source in open
      modifies this
      ensures Valid() && View() == StepErrored(cfg, old(View()), source)
    {
      hide Inv, WellFormed, ChannelSpec.Die, ChannelSpec.Notify;
      InRange(View(), cfg.hasEventSource);
      ErroredKeepsInv(cfg, View(), source);
      var Holder(key, id) := open[source];
      if now - chans[id].mountedAt < STARTUP_GRACE_MS {
        return;
      }
      chans := chans[id := chans[id].(errors := chans[id].errors + 1)];
      if chans[id].errors >= MAX_CONSECUTIVE_ERRORS {
        Die(source, key, id);
      } else {
        chans := chans[id := chans[id].(state := chans[id].state.(connected := false))];
        assert chans == old(chans)[id := chans[id]];
      }
      Notify(id);
    }

    method OnMessage(source: nat, frame: Option<F>)
      requires Valid() && source in open
      modifies this
      ensures Valid() && View() == StepMessage(cfg, old(View()), source, frame)
    {
      hide Inv, WellFormed;
      InRange(View(), cfg.hasEventSource);
      MessageKeepsInv(cfg, View(), source, frame);
      if frame.Some? {
        var id := open[source].chan;
        chans := chans[id := chans[id].(state := cfg.reduce(chans[id].state, frame.value, chans[id].context))];
        Notify(id);
      }
    }

    method OnTimer(timer: nat)
      requires Valid() && timer in timers && now >= timers[timer].due
      modifies this
      ensures Valid() && View() == StepFire(cfg, old(View()), timer)
    {
      hide Inv, WellFormed;
      InRange(View(), cfg.hasEventSource);
      FireKeepsInv(cfg, View(), timer);
      var Holder(key, id) := timers[timer].holder;
      timers := timers - {timer};
      chans := chans[id := chans[id].(timer := None)];
      if key !in channels || channels[key] != id || chans[id].source.Some? {
        return;
      }
      Connect(key, id);
    }

    // The closure given to onOpen, called with whatever function the hook likes.
    method RunApply(ticket: nat, fn: Link<D> -> Link<D>)
      requires Valid() && ticket < |tickets|
      modifies this
      ensures Valid() && View() == StepApply(old(View()), ticket, fn)
    {
      hide Inv, WellFormed;
      InRange(View(), cfg.hasEventSource);
      ApplyKeepsInv(View(), ticket, fn, cfg.hasEventSource);
      var Holder(key, id) := tickets[ticket];
      if key !in channels || channels[key] != id {
        return;
      }
      chans := chans[id := chans[id].(state := fn(chans[id].state))];
      Notify(id);
    }

    method PassTime(ms: nat)
      requires Valid()
      modifies this`now
      ensures Valid() && View() == old(View()).(now := old(now) + ms)
    {
      hide Inv, WellFormed;
      InRange(View(), cfg.hasEventSource);
      TickKeepsInv(View(), ms, cfg.hasEventSource);
      now := now + ms;
    }
  }
}
