/** What every run of the channel store keeps, whatever the order of its steps. */
module ChannelRuns {
  import opened Options
  import opened ChannelSpec

  // ---- Steps that neither make nor close anything ----

  ghost predicate SameEnds<D, C>(a: Chan<D, C>, b: Chan<D, C>) {
    a.key == b.key && a.source == b.source && a.timer == b.timer && a.refCount == b.refCount
  }

  // w' is w with one channel rewritten in place, and perhaps more notices and tickets.
  ghost predicate Edited<D, C>(w: World<D, C>, w': World<D, C>, id: nat) {
    && id < |w.chans| && id < |w'.chans|
    && SameEnds(w.chans[id], w'.chans[id]) && Paced(w.now, w'.chans[id])
    && w' == w.(chans := w.chans[id := w'.chans[id]], notices := w'.notices, tickets := w'.tickets)
    && forall i | 0 <= i < |w'.tickets| ::
      w'.tickets[i].chan < |w.chans| && w.chans[w'.tickets[i].chan].key == w'.tickets[i].key
  }

  lemma EditKeepsWired<D, C>(w: World<D, C>, w': World<D, C>, id: nat)
    requires Wired(w) && Edited(w, w', id)
    ensures Wired(w')
  {
    forall s | s in w.open ensures SourceOk(w', s) {
      assert SourceOk(w, s);
    }
    forall t | t in w.timers ensures TimerOk(w', t) {
      assert TimerOk(w, t);
    }
    forall u | u in w.subs ensures SubOk(w', u) {
      assert SubOk(w, u);
    }
  }

  lemma EditKeepsChan<D, C>(w: World<D, C>, w': World<D, C>, id: nat, i: nat, hasEventSource: bool)
    requires Edited(w, w', id) && i < |w.chans| && ChanWired(w, i, hasEventSource)
    ensures ChanWired(w', i, hasEventSource)
  {
    assert Holding(w', i) == Holding(w, i);
  }

  lemma EditKeepsInv<D, C>(w: World<D, C>, w': World<D, C>, id: nat, hasEventSource: bool)
    requires Inv(w, hasEventSource) && Edited(w, w', id)
    ensures Inv(w', hasEventSource)
  {
    EditKeepsWired(w, w', id);
    forall i | 0 <= i < |w.chans| ensures ChanWired(w', i, hasEventSource) {
      EditKeepsChan(w, w', id, i, hasEventSource);
    }
  }

  lemma OpenedKeepsInv<D, C>(w: World<D, C>, source: nat, hasEventSource: bool)
    requires Inv(w, hasEventSource)
    ensures Inv(StepOpened(w, source), hasEventSource)
  {
    if source in w.open {
      assert SourceOk(w, source) && ChanWired(w, w.open[source].chan, hasEventSource);
      EditKeepsInv(w, StepOpened(w, source), w.open[source].chan, hasEventSource);
    }
  }

  lemma MessageKeepsInv<D, F, C>(cfg: Config<D, F, C>, w: World<D, C>, source: nat, frame: Option<F>)
    requires Inv(w, cfg.hasEventSource)
    ensures Inv(StepMessage(cfg, w, source, frame), cfg.hasEventSource)
  {
    if source in w.open && frame.Some? {
      EditKeepsInv(w, StepMessage(cfg, w, source, frame), w.open[source].chan, cfg.hasEventSource);
    }
  }

  lemma ApplyKeepsInv<D, C>(w: World<D, C>, ticket: nat, fn: Link<D> -> Link<D>, hasEventSource: bool)
    requires Inv(w, hasEventSource)
    ensures Inv(StepApply(w, ticket, fn), hasEventSource)
  {
    if ticket < |w.tickets| && StepApply(w, ticket, fn) != w {
      EditKeepsInv(w, StepApply(w, ticket, fn), w.tickets[ticket].chan, hasEventSource);
    }
  }

  lemma UpdateKeepsInv<D, C>(w: World<D, C>, key: string, fn: Link<D> -> Link<D>, hasEventSource: bool)
    requires Inv(w, hasEventSource)
    ensures Inv(StepUpdate(w, key, fn), hasEventSource)
  {
    if key in w.channels {
      EditKeepsInv(w, StepUpdate(w, key, fn), w.channels[key], hasEventSource);
    }
  }

  lemma TickKeepsChan<D, C>(w: World<D, C>, ms: nat, i: nat, hasEventSource: bool)
    requires i < |w.chans| && ChanWired(w, i, hasEventSource)
    ensures ChanWired(w.(now := w.now + ms), i, hasEventSource)
  {
    assert Holding(w.(now := w.now + ms), i) == Holding(w, i);
  }

  lemma TickKeepsInv<D, C>(w: World<D, C>, ms: nat, hasEventSource: bool)
    requires Inv(w, hasEventSource)
    ensures Inv(w.(now := w.now + ms), hasEventSource)
  {
    var w' := w.(now := w.now + ms);
    forall s | s in w.open ensures SourceOk(w', s) {
      assert SourceOk(w, s);
    }
    forall t | t in w.timers ensures TimerOk(w', t) {
      assert TimerOk(w, t);
    }
    forall u | u in w.subs ensures SubOk(w', u) {
      assert SubOk(w, u);
    }
    forall i | 0 <= i < |w.chans| ensures ChanWired(w', i, hasEventSource) {
      TickKeepsChan(w, ms, i, hasEventSource);
    }
  }

  // ---- Steps that make or close something ----

  lemma HoldingGrows<D, C>(w: World<D, C>, w': World<D, C>, sub: Sub, i: nat)
    requires Wired(w) && w'.subs == w.subs[w.nextSub := sub]
    ensures Holding(w', i) == if i == sub.holder.chan then Holding(w, i) + {w.nextSub} else Holding(w, i)
    ensures |Holding(w', i)| == |Holding(w, i)| + if i == sub.holder.chan then 1 else 0
  {
    hide Wired, Holding;
    NextSubIsNew(w);
    HoldersGrow(w, w', sub, i);
  }

  lemma NextSubIsNew<D, C>(w: World<D, C>)
    requires Wired(w)
    ensures w.nextSub !in w.subs && forall i :: w.nextSub !in Holding(w, i)
  {
    assert w.nextSub in w.subs ==> SubOk(w, w.nextSub);
  }

  lemma HoldersGrow<D, C>(w: World<D, C>, w': World<D, C>, sub: Sub, i: nat)
    requires w.nextSub !in w.subs && w'.subs == w.subs[w.nextSub := sub]
    ensures Holding(w', i) == if i == sub.holder.chan then Holding(w, i) + {w.nextSub} else Holding(w, i)
  {
  }

  lemma HoldingShrinks<D, C>(w: World<D, C>, w': World<D, C>, sub: nat, i: nat)
    requires sub in w.subs && w'.subs == w.subs - {sub}
    ensures Holding(w', i) == Holding(w, i) - {sub}
    ensures |Holding(w', i)| == |Holding(w, i)| - if i == w.subs[sub].holder.chan then 1 else 0
  {
    assert Holding(w', i) == Holding(w, i) - {sub};
  }

  lemma JoinKeepsWired<D, F, C>(cfg: Config<D, F, C>, w: World<D, C>, key: string, notifier: nat, context: Option<C>)
    requires Wired(w) && key in w.channels
    ensures Wired(StepSubscribe(cfg, w, key, notifier, context))
  {
    var w' := StepSubscribe(cfg, w, key, notifier, context);
    forall s | s in w'.open ensures SourceOk(w', s) {
      assert SourceOk(w, s);
    }
    forall t | t in w'.timers ensures TimerOk(w', t) {
      assert TimerOk(w, t);
    }
    forall u | u in w'.subs ensures SubOk(w', u) {
      assert u in w.subs ==> SubOk(w, u);
    }
  }


  lemma JoinKeepsChan<D, F, C>(cfg: Config<D, F, C>, w: World<D, C>, key: string, notifier: nat, context: Option<C>, i: nat)
    requires Inv(w, cfg.hasEventSource) && key in w.channels && i < |w.chans|
    ensures ChanWired(StepSubscribe(cfg, w, key, notifier, context), i, cfg.hasEventSource)
    ensures Paced(w.now, StepSubscribe(cfg, w, key, notifier, context).chans[i])
  {
    var w' := StepSubscribe(cfg, w, key, notifier, context);
    assert ChanWired(w, i, cfg.hasEventSource);
    HoldingGrows(w, w', w'.subs[w.nextSub], i);
  }

  lemma FreshKeepsOldChan<D, F, C>(cfg: Config<D, F, C>, w: World<D, C>, key: string, notifier: nat, context: Option<C>, i: nat)
    requires Inv(w, cfg.hasEventSource) && key !in w.channels && i < |w.chans|
    ensures ChanWired(StepSubscribe(cfg, w, key, notifier, context), i, cfg.hasEventSource)
  {
    hide Paced;
    var w' := StepSubscribe(cfg, w, key, notifier, context);
    assert w'.chans[i] == w.chans[i];
    assert Mapped(w', i) == Mapped(w, i);
    assert w.nextSource in w.open ==> SourceOk(w, w.nextSource);
    assert ChanWired(w, i, cfg.hasEventSource);
    HoldingGrows(w, w', w'.subs[w.nextSub], i);
  }

  lemma FreshShape<D, F, C>(cfg: Config<D, F, C>, w: World<D, C>, key: string, notifier: nat, context: Option<C>)
    requires WellFormed(w) && key !in w.channels
    ensures
      var w', id := StepSubscribe(cfg, w, key, notifier, context), |w.chans|;
      && |w'.chans| == id + 1 && w'.channels == w.channels[key := id] && w'.now == w.now
      && w'.subs == w.subs[w.nextSub := Sub(Holder(key, id), notifier)] && w'.nextSub == w.nextSub + 1
      && w'.timers == w.timers && w'.nextTimer == w.nextTimer && w'.tickets == w.tickets
      && w'.open == (if cfg.hasEventSource then w.open[w.nextSource := Holder(key, id)] else w.open)
      && w'.nextSource == w.nextSource + (if cfg.hasEventSource then 1 else 0)
      && (forall i | 0 <= i < id :: w'.chans[i] == w.chans[i])
      && w'.chans[id] == NewChan(cfg, key, w'.chans[id].context, w.now).(
           source := if cfg.hasEventSource then Some(w.nextSource) else None, notifiers := {notifier})
  {
  }

  lemma FreshKeepsWired<D, F, C>(cfg: Config<D, F, C>, w: World<D, C>, key: string, notifier: nat, context: Option<C>)
    requires Wired(w) && key !in w.channels
    ensures Wired(StepSubscribe(cfg, w, key, notifier, context))
  {
    hide StepSubscribe, Holding;
    var w' := StepSubscribe(cfg, w, key, notifier, context);
    FreshShape(cfg, w, key, notifier, context);
    forall s | s in w'.open ensures SourceOk(w', s) {
      assert s in w.open ==> SourceOk(w, s);
    }
    forall t | t in w'.timers ensures TimerOk(w', t) {
      assert TimerOk(w, t);
    }
    forall u | u in w'.subs ensures SubOk(w', u) {
      assert u in w.subs ==> SubOk(w, u);
    }
  }

  lemma FreshMakesChan<D, F, C>(cfg: Config<D, F, C>, w: World<D, C>, key: string, notifier: nat, context: Option<C>)
    requires Wired(w) && key !in w.channels
    ensures ChanWired(StepSubscribe(cfg, w, key, notifier, context), |w.chans|, cfg.hasEventSource)
  {
    hide StepSubscribe, SourceOk, TimerOk;
    var w' := StepSubscribe(cfg, w, key, notifier, context);
    FreshShape(cfg, w, key, notifier, context);
    HoldingGrows(w, w', w'.subs[w.nextSub], |w.chans|);
    assert Holding(w, |w.chans|) == {};
  }

  lemma JoinKeepsInv<D, F, C>(cfg: Config<D, F, C>, w: World<D, C>, key: string, notifier: nat, context: Option<C>)
    requires Inv(w, cfg.hasEventSource) && key in w.channels
    ensures Inv(StepSubscribe(cfg, w, key, notifier, context), cfg.hasEventSource)
  {
    JoinKeepsWired(cfg, w, key, notifier, context);
    forall i | 0 <= i < |w.chans| ensures ChanWired(StepSubscribe(cfg, w, key, notifier, context), i, cfg.hasEventSource) {
      JoinKeepsChan(cfg, w, key, notifier, context, i);
    }
  }

  lemma FreshKeepsInv<D, F, C>(cfg: Config<D, F, C>, w: World<D, C>, key: string, notifier: nat, context: Option<C>)
    requires Inv(w, cfg.hasEventSource) && key !in w.channels
    ensures Inv(StepSubscribe(cfg, w, key, notifier, context), cfg.hasEventSource)
  {
    FreshKeepsWired(cfg, w, key, notifier, context);
    FreshMakesChan(cfg, w, key, notifier, context);
    forall i | 0 <= i < |w.chans| ensures ChanWired(StepSubscribe(cfg, w, key, notifier, context), i, cfg.hasEventSource) {
      FreshKeepsOldChan(cfg, w, key, notifier, context, i);
    }
  }

  lemma SubscribeKeepsInv<D, F, C>(cfg: Config<D, F, C>, w: World<D, C>, key: string, notifier: nat, context: Option<C>)
    requires Inv(w, cfg.hasEventSource)
    ensures Inv(StepSubscribe(cfg, w, key, notifier, context), cfg.hasEventSource)
  {
    hide StepSubscribe;
    if key in w.channels {
      JoinKeepsInv(cfg, w, key, notifier, context);
    } else {
      FreshKeepsInv(cfg, w, key, notifier, context);
    }
  }

  // The last holder leaves: the channel is closed and forgotten.
  lemma LastLeaves<D, C>(w: World<D, C>, sub: nat, hasEventSource: bool)
    requires Inv(w, hasEventSource) && sub in w.subs
    requires w.chans[w.subs[sub].holder.chan].refCount == 1
    ensures forall u | u in w.subs && w.subs[u].holder.chan == w.subs[sub].holder.chan :: u == sub
  {
    var id := w.subs[sub].holder.chan;
    assert ChanWired(w, id, hasEventSource);
    assert |Holding(w, id) - {sub}| == 0;
    forall u | u in w.subs && w.subs[u].holder.chan == id ensures u == sub {
      assert u in Holding(w, id);
      assert u != sub ==> u in Holding(w, id) - {sub};
    }
  }

  lemma LeaveKeepsWired<D, C>(w: World<D, C>, sub: nat, hasEventSource: bool)
    requires Inv(w, hasEventSource) && sub in w.subs
    requires w.chans[w.subs[sub].holder.chan].refCount > 1
    ensures Wired(StepUnsubscribe(w, sub))
  {
    var w' := StepUnsubscribe(w, sub);
    assert SubOk(w, sub);
    forall s | s in w'.open ensures SourceOk(w', s) {
      assert SourceOk(w, s);
    }
    forall t | t in w'.timers ensures TimerOk(w', t) {
      assert TimerOk(w, t);
    }
    forall u | u in w'.subs ensures SubOk(w', u) {
      assert SubOk(w, u);
    }
  }

  lemma ReleaseKeepsSubs<D, C>(w: World<D, C>, sub: nat, hasEventSource: bool)
    requires Inv(w, hasEventSource) && sub in w.subs
    requires w.chans[w.subs[sub].holder.chan].refCount == 1
    ensures forall u {:trigger SubOk(StepUnsubscribe(w, sub), u)} | u in StepUnsubscribe(w, sub).subs :: SubOk(StepUnsubscribe(w, sub), u)
  {
    var w' := StepUnsubscribe(w, sub);
    assert SubOk(w, sub);
    LastLeaves(w, sub, hasEventSource);
    forall u | u in w'.subs ensures SubOk(w', u) {
      assert SubOk(w, u);
    }
  }

  lemma ReleaseKeepsWired<D, C>(w: World<D, C>, sub: nat, hasEventSource: bool)
    requires Inv(w, hasEventSource) && sub in w.subs
    requires w.chans[w.subs[sub].holder.chan].refCount == 1
    ensures Wired(StepUnsubscribe(w, sub))
  {
    var w' := StepUnsubscribe(w, sub);
    assert SubOk(w, sub);
    ReleaseKeepsSubs(w, sub, hasEventSource);
    forall s | s in w'.open ensures SourceOk(w', s) {
      assert SourceOk(w, s);
    }
    forall t | t in w'.timers ensures TimerOk(w', t) {
      assert TimerOk(w, t);
    }
  }

  lemma OthersKeepChan<D, C>(w: World<D, C>, sub: nat, i: nat, hasEventSource: bool)
    requires Inv(w, hasEventSource) && sub in w.subs && i < |w.chans| && i != w.subs[sub].holder.chan
    ensures ChanWired(StepUnsubscribe(w, sub), i, hasEventSource)
  {
    hide Paced, StepUnsubscribe;
    assert ChanWired(w, i, hasEventSource);
    UnsubscribeSparesOthers(w, sub, i, hasEventSource);
    HoldingShrinks(w, StepUnsubscribe(w, sub), sub, i);
  }

  lemma UnsubscribeSparesOthers<D, C>(w: World<D, C>, sub: nat, i: nat, hasEventSource: bool)
    requires Inv(w, hasEventSource) && sub in w.subs && i < |w.chans| && i != w.subs[sub].holder.chan
    ensures var w' := StepUnsubscribe(w, sub);
      && |w'.chans| == |w.chans| && w'.chans[i] == w.chans[i] && Mapped(w', i) == Mapped(w, i)
      && w'.subs == w.subs - {sub}
      && w'.open.Keys <= w.open.Keys && w'.timers.Keys <= w.timers.Keys
      && (forall s | s in w.open && w.open[s].chan == i :: s in w'.open && w'.open[s] == w.open[s])
      && (forall t | t in w.timers && w.timers[t].holder.chan == i :: t in w'.timers && w'.timers[t] == w.timers[t])
  {
    hide Paced, Holding;
    assert SubOk(w, sub);
    assert ChanWired(w, w.subs[sub].holder.chan, hasEventSource);
  }

  lemma LeftKeepsChan<D, C>(w: World<D, C>, sub: nat, hasEventSource: bool)
    requires Inv(w, hasEventSource) && sub in w.subs
    ensures ChanWired(StepUnsubscribe(w, sub), w.subs[sub].holder.chan, hasEventSource)
  {
    assert SubOk(w, sub) && ChanWired(w, w.subs[sub].holder.chan, hasEventSource);
    HoldingShrinks(w, StepUnsubscribe(w, sub), sub, w.subs[sub].holder.chan);
  }

  lemma UnsubscribeKeepsPace<D, C>(w: World<D, C>, sub: nat, hasEventSource: bool)
    requires Inv(w, hasEventSource)
    ensures sub !in w.subs ==> StepUnsubscribe(w, sub) == w
    ensures |StepUnsubscribe(w, sub).chans| == |w.chans| && StepUnsubscribe(w, sub).now == w.now
    ensures forall i | 0 <= i < |w.chans| :: Paced(w.now, StepUnsubscribe(w, sub).chans[i])
  {
    hide ChanWired, SourceOk, TimerOk;
    assert sub in w.subs ==> SubOk(w, sub);
  }

  lemma UnsubscribeKeepsInv<D, C>(w: World<D, C>, sub: nat, hasEventSource: bool)
    requires Inv(w, hasEventSource)
    ensures Inv(StepUnsubscribe(w, sub), hasEventSource)
  {
    hide StepUnsubscribe, Paced;
    UnsubscribeKeepsPace(w, sub, hasEventSource);
    if sub in w.subs {
      var w' := StepUnsubscribe(w, sub);
      assert SubOk(w, sub) && ChanWired(w, w.subs[sub].holder.chan, hasEventSource);
      if w.chans[w.subs[sub].holder.chan].refCount > 1 {
        LeaveKeepsWired(w, sub, hasEventSource);
      } else {
        ReleaseKeepsWired(w, sub, hasEventSource);
      }
      LeftKeepsChan(w, sub, hasEventSource);
      forall i | 0 <= i < |w.chans| ensures ChanWired(w', i, hasEventSource) {
        if i != w.subs[sub].holder.chan {
          OthersKeepChan(w, sub, i, hasEventSource);
        }
      }
    }
  }

  lemma DeathKeepsWired<D, F, C>(cfg: Config<D, F, C>, w: World<D, C>, source: nat)
    requires Inv(w, cfg.hasEventSource) && Counted(w, source)
    requires w.chans[w.open[source].chan].errors + 1 >= MAX_CONSECUTIVE_ERRORS
    ensures Wired(StepErrored(cfg, w, source))
  {
    var w' := StepErrored(cfg, w, source);
    assert SourceOk(w, source) && ChanWired(w, w.open[source].chan, cfg.hasEventSource);
    forall s | s in w'.open ensures SourceOk(w', s) {
      assert SourceOk(w, s);
    }
    forall t | t in w'.timers ensures TimerOk(w', t) {
      assert t in w.timers ==> TimerOk(w, t);
    }
    forall u | u in w'.subs ensures SubOk(w', u) {
      assert SubOk(w, u);
    }
  }

  lemma DeathKeepsChan<D, F, C>(cfg: Config<D, F, C>, w: World<D, C>, source: nat, i: nat)
    requires Inv(w, cfg.hasEventSource) && Counted(w, source) && i < |w.chans|
    requires w.chans[w.open[source].chan].errors + 1 >= MAX_CONSECUTIVE_ERRORS
    ensures ChanWired(StepErrored(cfg, w, source), i, cfg.hasEventSource)
    ensures Paced(w.now, StepErrored(cfg, w, source).chans[i])
  {
    var w' := StepErrored(cfg, w, source);
    assert SourceOk(w, source) && ChanWired(w, w.open[source].chan, cfg.hasEventSource);
    assert ChanWired(w, i, cfg.hasEventSource);
    assert Holding(w', i) == Holding(w, i);
    assert w.nextTimer in w.timers ==> TimerOk(w, w.nextTimer);
  }

  lemma ErroredKeepsInv<D, F, C>(cfg: Config<D, F, C>, w: World<D, C>, source: nat)
    requires Inv(w, cfg.hasEventSource)
    ensures Inv(StepErrored(cfg, w, source), cfg.hasEventSource)
  {
    if Counted(w, source) {
      var w' := StepErrored(cfg, w, source);
      if w.chans[w.open[source].chan].errors + 1 >= MAX_CONSECUTIVE_ERRORS {
        DeathKeepsWired(cfg, w, source);
        forall i | 0 <= i < |w.chans| ensures ChanWired(w', i, cfg.hasEventSource) && Paced(w.now, w'.chans[i]) {
          DeathKeepsChan(cfg, w, source, i);
        }
      } else {
        assert SourceOk(w, source) && ChanWired(w, w.open[source].chan, cfg.hasEventSource);
        EditKeepsInv(w, w', w.open[source].chan, cfg.hasEventSource);
      }
    }
  }

  ghost predicate Reconnects<D, C>(w: World<D, C>, timer: nat)
    requires timer in w.timers && w.timers[timer].holder.chan < |w.chans|
  {
    var h := w.timers[timer].holder;
    && w.now >= w.timers[timer].due && h.key in w.channels && w.channels[h.key] == h.chan
    && w.chans[h.chan].source.None?
  }

  lemma FireShape<D, F, C>(cfg: Config<D, F, C>, w: World<D, C>, timer: nat)
    requires WellFormed(w) && timer in w.timers && w.now >= w.timers[timer].due
    ensures
      var w', h := StepFire(cfg, w, timer), w.timers[timer].holder;
      && w' == w.(chans := w'.chans, timers := w.timers - {timer}, open := w'.open, nextSource := w'.nextSource)
      && |w'.chans| == |w.chans| && (forall i | 0 <= i < |w.chans| && i != h.chan :: w'.chans[i] == w.chans[i])
      && (Reconnects(w, timer) ==>
            && w'.chans[h.chan] == w.chans[h.chan].(timer := None, source := Some(w.nextSource))
            && w'.open == w.open[w.nextSource := h] && w'.nextSource == w.nextSource + 1)
      && (!Reconnects(w, timer) ==>
            && w'.chans[h.chan] == w.chans[h.chan].(timer := None)
            && w'.open == w.open && w'.nextSource == w.nextSource)
  {
  }

  lemma FireKeepsWired<D, F, C>(cfg: Config<D, F, C>, w: World<D, C>, timer: nat)
    requires Inv(w, cfg.hasEventSource) && timer in w.timers
    ensures Wired(StepFire(cfg, w, timer))
  {
    hide Wired, WellFormed;
    if w.now >= w.timers[timer].due {
      FiredIsWired(cfg, w, timer);
    }
  }

  lemma FiredIsWired<D, F, C>(cfg: Config<D, F, C>, w: World<D, C>, timer: nat)
    requires Inv(w, cfg.hasEventSource) && timer in w.timers && w.now >= w.timers[timer].due
    ensures Wired(StepFire(cfg, w, timer))
  {
    hide Paced, StepFire, Holding;
    var w' := StepFire(cfg, w, timer);
    FireShape(cfg, w, timer);
    assert TimerOk(w, timer) && ChanWired(w, w.timers[timer].holder.chan, cfg.hasEventSource);
    forall s | s in w'.open ensures SourceOk(w', s) {
      assert s in w.open ==> SourceOk(w, s);
    }
    forall t | t in w'.timers ensures TimerOk(w', t) {
      assert TimerOk(w, t);
    }
    forall u | u in w'.subs ensures SubOk(w', u) {
      assert SubOk(w, u);
    }
  }

  lemma FireKeepsChan<D, F, C>(cfg: Config<D, F, C>, w: World<D, C>, timer: nat, i: nat)
    requires Inv(w, cfg.hasEventSource) && timer in w.timers && i < |w.chans|
    ensures i < |StepFire(cfg, w, timer).chans|
    ensures ChanWired(StepFire(cfg, w, timer), i, cfg.hasEventSource)
    ensures Paced(w.now, StepFire(cfg, w, timer).chans[i])
  {
    hide ChanWired, Paced, SourceOk, TimerOk, SubOk;
    if w.now >= w.timers[timer].due {
      FiredKeepsChan(cfg, w, timer, i);
    }
  }

  lemma FiredKeepsChan<D, F, C>(cfg: Config<D, F, C>, w: World<D, C>, timer: nat, i: nat)
    requires Inv(w, cfg.hasEventSource) && timer in w.timers && i < |w.chans| && w.now >= w.timers[timer].due
    ensures i < |StepFire(cfg, w, timer).chans|
    ensures ChanWired(StepFire(cfg, w, timer), i, cfg.hasEventSource)
    ensures Paced(w.now, StepFire(cfg, w, timer).chans[i])
  {
    hide StepFire;
    var w' := StepFire(cfg, w, timer);
    FireShape(cfg, w, timer);
    assert TimerOk(w, timer) && ChanWired(w, w.timers[timer].holder.chan, cfg.hasEventSource);
    assert ChanWired(w, i, cfg.hasEventSource);
    assert Holding(w', i) == Holding(w, i);
    assert w.nextSource in w.open ==> SourceOk(w, w.nextSource);
  }

  lemma FireKeepsInv<D, F, C>(cfg: Config<D, F, C>, w: World<D, C>, timer: nat)
    requires Inv(w, cfg.hasEventSource)
    ensures Inv(StepFire(cfg, w, timer), cfg.hasEventSource)
  {
    if timer in w.timers {
      var w' := StepFire(cfg, w, timer);
      FireKeepsWired(cfg, w, timer);
      forall i | 0 <= i < |w.chans| ensures ChanWired(w', i, cfg.hasEventSource) && Paced(w.now, w'.chans[i]) {
        FireKeepsChan(cfg, w, timer, i);
      }
    }
  }

  // ---- Any step, any run ----

  lemma StepKeepsInv<D, F, C>(cfg: Config<D, F, C>, w: World<D, C>, e: Event<D, F, C>)
    requires Inv(w, cfg.hasEventSource)
    ensures Inv(Step(cfg, w, e), cfg.hasEventSource)
  {
    hide StepSubscribe, StepUnsubscribe, StepOpened, StepErrored, StepMessage, StepFire, StepApply, StepUpdate;
    match e
    case Subscribe(key, notifier, context) => SubscribeKeepsInv(cfg, w, key, notifier, context);
    case Unsubscribe(sub) => UnsubscribeKeepsInv(w, sub, cfg.hasEventSource);
    case Opened(source) => OpenedKeepsInv(w, source, cfg.hasEventSource);
    case Errored(source) => ErroredKeepsInv(cfg, w, source);
    case Message(source, frame) => MessageKeepsInv(cfg, w, source, frame);
    case Fire(timer) => FireKeepsInv(cfg, w, timer);
    case Apply(ticket, fn) => ApplyKeepsInv(w, ticket, fn, cfg.hasEventSource);
    case Update(key, fn) => UpdateKeepsInv(w, key, fn, cfg.hasEventSource);
    case Tick(ms) => TickKeepsInv(w, ms, cfg.hasEventSource);
  }

  lemma {:induction false} RunKeepsInv<D, F, C>(cfg: Config<D, F, C>, events: seq<Event<D, F, C>>)
    ensures Inv(Run(cfg, events), cfg.hasEventSource)
  {
    if events != [] {
      RunKeepsInv(cfg, events[..|events| - 1]);
      StepKeepsInv(cfg, Run(cfg, events[..|events| - 1]), events[|events| - 1]);
    }
  }

  // What the store's methods need to know of a valid world before they index.
  lemma InRange<D, C>(w: World<D, C>, hasEventSource: bool)
    requires Inv(w, hasEventSource)
    ensures WellFormed(w)
    ensures forall k <- w.channels :: w.channels[k] < |w.chans|
    ensures forall s <- w.open :: w.open[s].chan < |w.chans|
    ensures forall t <- w.timers :: w.timers[t].holder.chan < |w.chans|
    ensures forall u <- w.subs :: w.subs[u].holder.chan < |w.chans|
    ensures forall i | 0 <= i < |w.tickets| :: w.tickets[i].chan < |w.chans|
  {
  }
}
