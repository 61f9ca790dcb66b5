/** What a channel reports about its connection, and what its frames are reduced with,
    read off the run alone. */
module ChannelFlags {
  import opened Options
  import opened ChannelSpec
  import opened ChannelRuns
  import opened ChannelHistory

  // ---- The events that matter ----

  // Event i is the channel's EventSource opening.
  ghost predicate Opens<D, F, C>(cfg: Config<D, F, C>, events: seq<Event<D, F, C>>, id: nat, i: int) {
    && 0 <= i < |events| && events[i].Opened?
    && var w := Run(cfg, events[..i]);
      events[i].source in w.open && w.open[events[i].source].chan == id
  }

  // Event i is an error on it, five seconds or more after the channel was made.
  ghost predicate Fails<D, F, C>(cfg: Config<D, F, C>, events: seq<Event<D, F, C>>, id: nat, i: int) {
    && 0 <= i < |events| && events[i].Errored?
    && var w := Run(cfg, events[..i]);
      && events[i].source in w.open && w.open[events[i].source].chan == id
      && id < |w.chans| && w.now >= w.chans[id].mountedAt + 5_000
  }

  ghost predicate EverOpened<D, F, C>(cfg: Config<D, F, C>, events: seq<Event<D, F, C>>, id: nat) {
    exists i :: Opens(cfg, events, id, i)
  }

  ghost predicate Keeps<D(!new)>(fn: Link<D> -> Link<D>) {
    forall s :: fn(s).connected == s.connected && fn(s).dead == s.dead
  }

  // The hooks and the callers' functions leave the two flags to the store.
  ghost predicate LeavesFlags<D(!new), F(!new), C(!new)>(cfg: Config<D, F, C>, events: seq<Event<D, F, C>>) {
    && !cfg.initial.connected && !cfg.initial.dead && Keeps(cfg.onDead)
    && (forall s, f, c :: cfg.reduce(s, f, c).connected == s.connected && cfg.reduce(s, f, c).dead == s.dead)
    && (forall i | 0 <= i < |events| && events[i].Apply? :: Keeps(events[i].fn))
    && (forall i | 0 <= i < |events| && events[i].Update? :: Keeps(events[i].fn))
  }

  // ---- One step ----

  ghost predicate Flagged<D, C>(w: World<D, C>, id: nat, wasOpen: bool, failures: nat) {
    && id < |w.chans| && w.chans[id].errors == failures
    && (w.chans[id].state.connected <==> wasOpen && failures == 0)
    && (w.chans[id].state.dead <==> failures >= 3)
  }

  lemma OpenFlags<D, C>(w: World<D, C>, source: nat)
    requires WellFormed(w) && source in w.open
    ensures Flagged(StepOpened(w, source), w.open[source].chan, true, 0)
  {
  }

  lemma ErrorFlags<D(!new), F, C>(cfg: Config<D, F, C>, w: World<D, C>, source: nat, wasOpen: bool, failures: nat)
    requires WellFormed(w) && Counted(w, source) && Keeps(cfg.onDead)
    requires Flagged(w, w.open[source].chan, wasOpen, failures)
    ensures Flagged(StepErrored(cfg, w, source), w.open[source].chan, wasOpen, failures + 1)
  {
  }

  lemma OtherFlags<D(!new), F(!new), C(!new)>(
      cfg: Config<D, F, C>, w: World<D, C>, e: Event<D, F, C>, id: nat, wasOpen: bool, failures: nat)
    requires Inv(w, cfg.hasEventSource) && Flagged(w, id, wasOpen, failures) && LeavesFlags(cfg, [e])
    requires !(e.Opened? && e.source in w.open && w.open[e.source].chan == id)
    requires !(e.Errored? && Counted(w, e.source) && w.open[e.source].chan == id)
    ensures Flagged(Step(cfg, w, e), id, wasOpen, failures)
  {
    hide StepOpened, StepErrored, StepSubscribe, StepUnsubscribe, StepFire;
    if Target(w, e) != Some(id) {
      hide Step;
      OthersUntouched(cfg, w, e, id);
    } else {
      assert [e][0] == e;
      match e
      case Subscribe(key, notifier, context) => SubscribeKeepsFlags(cfg, w, key, notifier, context, id);
      case Unsubscribe(sub) => UnsubscribeKeepsFlags(w, sub, id);
      case Fire(timer) => FireKeepsFlags(cfg, w, timer, id);
      case _ =>
    }
  }

  ghost predicate SameRecord<D, C>(w: World<D, C>, w': World<D, C>, id: nat) {
    && id < |w.chans| && id < |w'.chans|
    && w'.chans[id].errors == w.chans[id].errors && w'.chans[id].state == w.chans[id].state
  }

  lemma SubscribeKeepsFlags<D, F, C>(
      cfg: Config<D, F, C>, w: World<D, C>, key: string, notifier: nat, context: Option<C>, id: nat)
    requires WellFormed(w) && id < |w.chans|
    ensures SameRecord(w, StepSubscribe(cfg, w, key, notifier, context), id)
  {
  }

  lemma UnsubscribeKeepsFlags<D, C>(w: World<D, C>, sub: nat, id: nat)
    requires WellFormed(w) && id < |w.chans|
    ensures SameRecord(w, StepUnsubscribe(w, sub), id)
  {
  }

  lemma FireKeepsFlags<D, F, C>(cfg: Config<D, F, C>, w: World<D, C>, timer: nat, id: nat)
    requires WellFormed(w) && id < |w.chans|
    ensures SameRecord(w, StepFire(cfg, w, timer), id)
  {
  }

  // ---- Runs ----

  // The failures since the last open, in order.
  ghost predicate Failures<D, F, C>(cfg: Config<D, F, C>, events: seq<Event<D, F, C>>, id: nat, ks: seq<int>) {
    && (forall a, b | 0 <= a < b < |ks| :: ks[a] < ks[b])
    && (forall k :: k in ks <==>
          Fails(cfg, events, id, k) && NoOpenAfter(cfg, events, id, k))
  }

  lemma Earlier<D, F, C>(cfg: Config<D, F, C>, events: seq<Event<D, F, C>>, id: nat, i: int)
    requires events != [] && i < |events| - 1
    ensures Opens(cfg, events, id, i) <==> Opens(cfg, events[..|events| - 1], id, i)
    ensures Fails(cfg, events, id, i) <==> Fails(cfg, events[..|events| - 1], id, i)
  {
    hide Step, Run;
    if 0 <= i {
      assert events[..|events| - 1][..i] == events[..i];
    }
  }

  lemma EverOpenedNext<D, F, C>(cfg: Config<D, F, C>, events: seq<Event<D, F, C>>, id: nat)
    requires events != []
    ensures EverOpened(cfg, events, id) <==>
      EverOpened(cfg, events[..|events| - 1], id) || Opens(cfg, events, id, |events| - 1)
  {
    hide Opens;
    var n := |events| - 1;
    if i :| Opens(cfg, events, id, i) {
      InRangeOpens(cfg, events, id, i);
      if i < n { Earlier(cfg, events, id, i); }
    }
    if i :| Opens(cfg, events[..n], id, i) {
      InRangeOpens(cfg, events[..n], id, i);
      Earlier(cfg, events, id, i);
    }
  }

  lemma InRangeOpens<D, F, C>(cfg: Config<D, F, C>, events: seq<Event<D, F, C>>, id: nat, i: int)
    requires Opens(cfg, events, id, i)
    ensures 0 <= i < |events|
  {
  }

  lemma InRangeFails<D, F, C>(cfg: Config<D, F, C>, events: seq<Event<D, F, C>>, id: nat, i: int)
    requires Fails(cfg, events, id, i)
    ensures 0 <= i < |events| && !Opens(cfg, events, id, i)
  {
  }

  ghost predicate NoOpenAfter<D, F, C>(cfg: Config<D, F, C>, events: seq<Event<D, F, C>>, id: nat, k: int) {
    forall j | k < j < |events| :: !Opens(cfg, events, id, j)
  }

  lemma NoOpenAfterNext<D, F, C>(cfg: Config<D, F, C>, events: seq<Event<D, F, C>>, id: nat, k: int)
    requires events != [] && k < |events| - 1
    ensures NoOpenAfter(cfg, events, id, k) <==>
      NoOpenAfter(cfg, events[..|events| - 1], id, k) && !Opens(cfg, events, id, |events| - 1)
  {
    hide Opens;
    var n := |events| - 1;
    forall j | k < j < n
      ensures Opens(cfg, events, id, j) <==> Opens(cfg, events[..n], id, j)
    {
      Earlier(cfg, events, id, j);
    }
  }

  function Join(ks: seq<int>, n: int, opens: bool, fails: bool): seq<int> {
    if opens then [] else if fails then ks + [n] else ks
  }

  function After(failures: nat, opens: bool, fails: bool): nat {
    if opens then 0 else if fails then failures + 1 else failures
  }

  // An open wipes the failures, a failure joins them, anything else leaves them.
  lemma FailuresNext<D, F, C>(cfg: Config<D, F, C>, events: seq<Event<D, F, C>>, id: nat, ks: seq<int>)
    requires events != [] && Failures(cfg, events[..|events| - 1], id, ks)
    ensures var n := |events| - 1;
      Failures(cfg, events, id, Join(ks, n, Opens(cfg, events, id, n), Fails(cfg, events, id, n)))
  {
    hide Opens, Fails, NoOpenAfter;
    var n := |events| - 1;
    var next := Join(ks, n, Opens(cfg, events, id, n), Fails(cfg, events, id, n));
    assert forall a | 0 <= a < |ks| :: ks[a] in ks;
    forall k
      ensures k in ks ==> k < n
      ensures k in next <==> Fails(cfg, events, id, k) && NoOpenAfter(cfg, events, id, k)
    {
      if k < n {
        Earlier(cfg, events, id, k);
        NoOpenAfterNext(cfg, events, id, k);
      } else {
        if Fails(cfg, events, id, k) { InRangeFails(cfg, events, id, k); }
        if Fails(cfg, events[..n], id, k) { InRangeFails(cfg, events[..n], id, k); }
        NoneAfterLast(cfg, events, id, k);
      }
    }
  }

  lemma NoneAfterLast<D, F, C>(cfg: Config<D, F, C>, events: seq<Event<D, F, C>>, id: nat, k: int)
    requires k >= |events| - 1
    ensures NoOpenAfter(cfg, events, id, k)
  {
  }

  lemma LastEvent<D, F, C>(cfg: Config<D, F, C>, events: seq<Event<D, F, C>>, id: nat)
    requires events != []
    ensures var w, e := Before(cfg, events), events[|events| - 1];
      && (Opens(cfg, events, id, |events| - 1) <==> e.Opened? && e.source in w.open && w.open[e.source].chan == id)
      && (Fails(cfg, events, id, |events| - 1) <==> e.Errored? && Counted(w, e.source) && w.open[e.source].chan == id)
  {
    hide Step, Run;
  }

  lemma LeavesEarlier<D(!new), F(!new), C(!new)>(cfg: Config<D, F, C>, events: seq<Event<D, F, C>>)
    requires events != [] && LeavesFlags(cfg, events)
    ensures LeavesFlags(cfg, events[..|events| - 1]) && LeavesFlags(cfg, [events[|events| - 1]])
  {
    var earlier, last := events[..|events| - 1], [events[|events| - 1]];
    assert forall i | 0 <= i < |earlier| :: earlier[i] == events[i];
    assert forall i | 0 <= i < |last| :: last[i] == events[|events| - 1];
  }

  // The record against the run: its count is the failures since the last open.
  lemma {:induction false} RunFlags<D(!new), F(!new), C(!new)>(
      cfg: Config<D, F, C>, events: seq<Event<D, F, C>>, id: nat) returns (ks: seq<int>)
    requires LeavesFlags(cfg, events)
    ensures Failures(cfg, events, id, ks)
    ensures id < |Run(cfg, events).chans| ==> Flagged(Run(cfg, events), id, EverOpened(cfg, events, id), |ks|)
    ensures id >= |Run(cfg, events).chans| ==> ks == [] && !EverOpened(cfg, events, id)
  {
    hide Step, Inv, LeavesFlags, Flagged, Failures, Opens, Fails, EverOpened;
    if events == [] {
      ks := [];
      NothingYet(cfg, id);
    } else {
      var n := |events| - 1;
      var w, e := Before(cfg, events), events[n];
      LeavesEarlier(cfg, events);
      var earlier := RunFlags(cfg, events[..n], id);
      RunKeepsInv(cfg, events[..n]);
      FailuresNext(cfg, events, id, earlier);
      EverOpenedNext(cfg, events, id);
      LastEvent(cfg, events, id);
      ks := Join(earlier, n, Opens(cfg, events, id, n), Fails(cfg, events, id, n));
      if id < |w.chans| {
        NextFlags(cfg, events, id, EverOpened(cfg, events[..n], id), |earlier|, EverOpened(cfg, events, id), |ks|);
      } else {
        NotYetMade(cfg, w, e, id);
        assert ks == [] && !EverOpened(cfg, events, id);
      }
    }
  }

  lemma NothingYet<D, F, C>(cfg: Config<D, F, C>, id: nat)
    ensures Failures(cfg, [], id, []) && !EverOpened(cfg, [], id) && id >= |Run(cfg, []).chans|
  {
  }

  lemma NextFlags<D(!new), F(!new), C(!new)>(cfg: Config<D, F, C>, events: seq<Event<D, F, C>>, id: nat,
      wasOpen: bool, failures: nat, isOpen: bool, failures': nat)
    requires events != [] && LeavesFlags(cfg, [events[|events| - 1]])
    requires Inv(Before(cfg, events), cfg.hasEventSource) && Flagged(Before(cfg, events), id, wasOpen, failures)
    requires isOpen <==> wasOpen || Opens(cfg, events, id, |events| - 1)
    requires failures' == After(failures, Opens(cfg, events, id, |events| - 1), Fails(cfg, events, id, |events| - 1))
    ensures Flagged(Run(cfg, events), id, isOpen, failures') && id < |Run(cfg, events).chans|
  {
    hide Flagged, Opens, Fails, LeavesFlags;
    hide StepOpened, StepErrored, StepSubscribe, StepUnsubscribe, StepFire, StepMessage, StepApply, StepUpdate;
    var w, e := Before(cfg, events), events[|events| - 1];
    FlaggedExists(w, id, wasOpen, failures);
    StepKeepsMaking(cfg, w, e, id);
    LastEvent(cfg, events, id);
    if Opens(cfg, events, id, |events| - 1) {
      OpenFlags(w, e.source);
    } else if Fails(cfg, events, id, |events| - 1) {
      DeadHookKeeps(cfg, e);
      ErrorFlags(cfg, w, e.source, wasOpen, failures);
    } else {
      OtherFlags(cfg, w, e, id, wasOpen, failures);
    }
  }

  lemma FlaggedExists<D, C>(w: World<D, C>, id: nat, wasOpen: bool, failures: nat)
    requires Flagged(w, id, wasOpen, failures)
    ensures id < |w.chans|
  {
  }

  lemma DeadHookKeeps<D(!new), F(!new), C(!new)>(cfg: Config<D, F, C>, e: Event<D, F, C>)
    requires LeavesFlags(cfg, [e])
    ensures Keeps(cfg.onDead)
  {
  }

  lemma NotYetMade<D(!new), F(!new), C(!new)>(cfg: Config<D, F, C>, w: World<D, C>, e: Event<D, F, C>, id: nat)
    requires WellFormed(w) && id >= |w.chans| && LeavesFlags(cfg, [e])
    ensures e.Opened? && e.source in w.open ==> w.open[e.source].chan != id
    ensures e.Errored? && Counted(w, e.source) ==> w.open[e.source].chan != id
    ensures id < |Step(cfg, w, e).chans| ==> Flagged(Step(cfg, w, e), id, false, 0)
  {
    hide StepSubscribe, StepUnsubscribe, StepOpened, StepErrored, StepMessage, StepFire, StepApply, StepUpdate;
    if e.Subscribe? {
      if id < |Step(cfg, w, e).chans| {
        MadeFresh(cfg, w, e.key, e.notifier, e.context, id);
      }
    } else {
      OnlySubscribeMakes(cfg, w, e);
    }
  }

  // In every run a channel reports itself connected exactly when it has opened and not
  // failed since.
  lemma ConnectedIff<D(!new), F(!new), C(!new)>(cfg: Config<D, F, C>, events: seq<Event<D, F, C>>, id: nat)
    requires LeavesFlags(cfg, events) && id < |Run(cfg, events).chans|
    ensures Run(cfg, events).chans[id].state.connected <==>
      exists i :: Opens(cfg, events, id, i) && forall j | i < j < |events| :: !Fails(cfg, events, id, j)
  {
    hide Step, Run, LeavesFlags, Opens, Fails;
    var ks := RunFlags(cfg, events, id);
    if EverOpened(cfg, events, id) && ks == [] {
      var first :| Opens(cfg, events, id, first);
      InRangeOpens(cfg, events, id, first);
      var i := LastOpen(cfg, events, id, |events|);
      forall j | i < j < |events|
        ensures !Fails(cfg, events, id, j)
      {
        assert j !in ks;
      }
    }
    if i :| Opens(cfg, events, id, i) && forall j | i < j < |events| :: !Fails(cfg, events, id, j) {
      InRangeOpens(cfg, events, id, i);
      if ks != [] {
        assert ks[0] in ks;
        InRangeFails(cfg, events, id, ks[0]);
      }
    }
  }

  lemma {:induction false} LastOpen<D, F, C>(cfg: Config<D, F, C>, events: seq<Event<D, F, C>>, id: nat, n: nat)
      returns (i: int)
    requires n <= |events|
    requires exists i :: i < n && Opens(cfg, events, id, i)
    ensures i < n && Opens(cfg, events, id, i) && forall j | i < j < n :: !Opens(cfg, events, id, j)
  {
    hide Opens;
    var j :| j < n && Opens(cfg, events, id, j);
    InRangeOpens(cfg, events, id, j);
    if Opens(cfg, events, id, n - 1) {
      i := n - 1;
    } else {
      i := LastOpen(cfg, events, id, n - 1);
    }
  }

  ghost predicate ThreeFailures<D, F, C>(
      cfg: Config<D, F, C>, events: seq<Event<D, F, C>>, id: nat, i: int, j: int, k: int) {
    i < j < k && Fails(cfg, events, id, i) && Fails(cfg, events, id, j) && Fails(cfg, events, id, k)
  }

  // And dead exactly when it has failed three times with no open since the first of them.
  lemma DeadIff<D(!new), F(!new), C(!new)>(cfg: Config<D, F, C>, events: seq<Event<D, F, C>>, id: nat)
    requires LeavesFlags(cfg, events) && id < |Run(cfg, events).chans|
    ensures Run(cfg, events).chans[id].state.dead <==>
      exists i, j, k :: ThreeFailures(cfg, events, id, i, j, k) && NoOpenAfter(cfg, events, id, i)
  {
    hide Step, Run, LeavesFlags, Opens, Fails;
    var ks := RunFlags(cfg, events, id);
    if |ks| >= 3 {
      assert ks[0] in ks && ks[1] in ks && ks[2] in ks;
      assert ThreeFailures(cfg, events, id, ks[0], ks[1], ks[2]);
    }
    if i, j, k :| ThreeFailures(cfg, events, id, i, j, k) && NoOpenAfter(cfg, events, id, i) {
      assert i in ks && j in ks && k in ks;
    }
  }

  // ---- What each event makes of a channel's state, whatever the hooks do ----

  ghost predicate On<D, C>(w: World<D, C>, source: nat, id: nat) {
    source in w.open && w.open[source].chan == id
  }

  // The store's own part in a channel's state: an open reports it connected, a failure
  // disconnected, the third in a row dead, before the hook sees it. Every open hands out
  // one `apply`, for the channel it is on.
  lemma OpenReports<D, F, C>(cfg: Config<D, F, C>, w: World<D, C>, source: nat, id: nat)
    requires WellFormed(w) && id < |w.chans|
    ensures id < |StepOpened(w, source).chans|
    ensures StepOpened(w, source).chans[id].state ==
      if On(w, source, id) then Link(true, false, w.chans[id].state.data) else w.chans[id].state
    ensures StepOpened(w, source).tickets == w.tickets + if source in w.open then [w.open[source]] else []
  {
  }

  lemma DeathReports<D, F, C>(cfg: Config<D, F, C>, w: World<D, C>, source: nat, h: Holder, id: nat)
    requires h.chan < |w.chans| && id < |w.chans|
    ensures |Die(cfg, w, source, h).chans| == |w.chans|
    ensures Die(cfg, w, source, h).chans[id].state ==
      if id == h.chan then cfg.onDead(Link(false, true, w.chans[id].state.data)) else w.chans[id].state
  {
  }

  lemma ErrorReports<D, F, C>(cfg: Config<D, F, C>, w: World<D, C>, source: nat, id: nat)
    requires WellFormed(w) && id < |w.chans|
    ensures id < |StepErrored(cfg, w, source).chans|
    ensures var before := w.chans[id].state;
      StepErrored(cfg, w, source).chans[id].state ==
        if !On(w, source, id) || w.now - w.chans[id].mountedAt < 5_000 then before
        else if w.chans[id].errors < 2 then Link(false, before.dead, before.data)
        else cfg.onDead(Link(false, true, before.data))
  {
    hide Die;
    if Counted(w, source) {
      var h := w.open[source];
      var ch := w.chans[h.chan];
      DeathReports(cfg, SetChan(w, h.chan, ch.(errors := ch.errors + 1)), source, h, id);
    }
  }

  // And a caller's function is applied to the state as it is, once: by an update while the
  // key is mapped, by a late apply while the channel it was made for is.
  lemma CallersWrite<D, F, C>(cfg: Config<D, F, C>, w: World<D, C>, e: Event<D, F, C>, id: nat)
    requires WellFormed(w) && id < |w.chans| && (e.Apply? || e.Update?)
    ensures id < |Step(cfg, w, e).chans|
    ensures var before := w.chans[id].state;
      var own := if e.Apply? then e.ticket < |w.tickets| && w.tickets[e.ticket].chan == id
          && w.tickets[e.ticket].key in w.channels && w.channels[w.tickets[e.ticket].key] == id
        else e.target in w.channels && w.channels[e.target] == id;
      Step(cfg, w, e).chans[id].state == if own then e.fn(before) else before
  {
    hide StepSubscribe, StepUnsubscribe, StepOpened, StepErrored, StepMessage, StepFire;
  }

  // ---- The context a frame is reduced with ----

  ghost predicate SameMaking<D, C>(w: World<D, C>, w': World<D, C>, id: nat) {
    && id < |w.chans| && id < |w'.chans| && w'.chans[id].key == w.chans[id].key
    && w'.chans[id].context == w.chans[id].context && w'.chans[id].mountedAt == w.chans[id].mountedAt
  }

  lemma StepKeepsMaking<D, F, C>(cfg: Config<D, F, C>, w: World<D, C>, e: Event<D, F, C>, id: nat)
    requires WellFormed(w) && id < |w.chans|
    ensures SameMaking(w, Step(cfg, w, e), id)
  {
    hide StepUnsubscribe, StepErrored, StepSubscribe;
    match e
    case Unsubscribe(sub) => UnsubscribeKeepsMaking(w, sub, id);
    case Errored(source) => ErrorKeepsMaking(cfg, w, source, id);
    case Subscribe(key, notifier, context) => SubscribeKeepsMaking(cfg, w, key, notifier, context, id);
    case _ =>
  }

  lemma UnsubscribeKeepsMaking<D, C>(w: World<D, C>, sub: nat, id: nat)
    requires WellFormed(w) && id < |w.chans|
    ensures SameMaking(w, StepUnsubscribe(w, sub), id)
  {
  }

  lemma ErrorKeepsMaking<D, F, C>(cfg: Config<D, F, C>, w: World<D, C>, source: nat, id: nat)
    requires WellFormed(w) && id < |w.chans|
    ensures SameMaking(w, StepErrored(cfg, w, source), id)
  {
  }

  lemma SubscribeKeepsMaking<D, F, C>(
      cfg: Config<D, F, C>, w: World<D, C>, key: string, notifier: nat, context: Option<C>, id: nat)
    requires WellFormed(w) && id < |w.chans|
    ensures SameMaking(w, StepSubscribe(cfg, w, key, notifier, context), id)
  {
  }

  // Event i made the channel, and says what its frames are reduced with.
  ghost predicate Made<D, F, C>(cfg: Config<D, F, C>, events: seq<Event<D, F, C>>, id: nat, i: nat) {
    && i < |events| && events[i].Subscribe?
    && events[i].key !in Run(cfg, events[..i]).channels
    && id == |Run(cfg, events[..i]).chans| < |Run(cfg, events).chans|
    && var ch := Run(cfg, events).chans[id];
      && ch.key == events[i].key && ch.mountedAt == Run(cfg, events[..i]).now
      && ch.context == if events[i].context.Some? then events[i].context.value else cfg.defaultContext
  }

  lemma JustMade<D, F, C>(cfg: Config<D, F, C>, w: World<D, C>, e: Event<D, F, C>, id: nat)
    requires WellFormed(w) && |w.chans| <= id < |Step(cfg, w, e).chans|
    ensures e.Subscribe? && id == |w.chans| && e.key !in w.channels
    ensures var ch := Step(cfg, w, e).chans[id];
      && ch.key == e.key && ch.mountedAt == w.now
      && ch.context == if e.context.Some? then e.context.value else cfg.defaultContext
  {
    hide StepUnsubscribe, StepOpened, StepErrored, StepMessage, StepFire, StepApply, StepUpdate;
    if !e.Subscribe? {
      OnlySubscribeMakes(cfg, w, e);
    }
  }

  lemma {:induction false} Maker<D, F, C>(cfg: Config<D, F, C>, events: seq<Event<D, F, C>>, id: nat) returns (i: nat)
    requires id < |Run(cfg, events).chans|
    ensures Made(cfg, events, id, i)
  {
    hide Step;
    var n := |events| - 1;
    var w := Run(cfg, events[..n]);
    if id < |w.chans| {
      i := Maker(cfg, events[..n], id);
      StepKeepsMaking(cfg, w, events[n], id);
      assert events[..n][..i] == events[..i];
    } else {
      i := n;
      JustMade(cfg, w, events[n], id);
    }
  }

  // In every run a frame is reduced with the context of the subscriber that made the
  // channel, whoever has joined it since; one that does not parse changes nothing.
  lemma MessageIsReduced<D, F, C>(cfg: Config<D, F, C>, events: seq<Event<D, F, C>>, source: nat, frame: Option<F>)
      returns (i: nat)
    requires source in Run(cfg, events).open
    ensures var w, w' := Run(cfg, events), Run(cfg, events + [Message(source, frame)]);
      var id := w.open[source].chan;
      && Made(cfg, events, id, i) && id < |w.chans| == |w'.chans|
      && (frame.None? ==> w' == w)
      && (frame.Some? ==> w'.chans[id].state == cfg.reduce(w.chans[id].state, frame.value,
            if events[i].context.Some? then events[i].context.value else cfg.defaultContext))
  {
    hide Step, Run;
    RunSnoc(cfg, events, Message(source, frame));
    i := Maker(cfg, events, Run(cfg, events).open[source].chan);
    Reduced(cfg, Run(cfg, events), source, frame);
  }

  lemma Reduced<D, F, C>(cfg: Config<D, F, C>, w: World<D, C>, source: nat, frame: Option<F>)
    requires WellFormed(w) && source in w.open
    ensures var w', id := Step(cfg, w, Message(source, frame)), w.open[source].chan;
      && id < |w.chans| == |w'.chans| && (frame.None? ==> w' == w)
      && (frame.Some? ==> w'.chans[id].state == cfg.reduce(w.chans[id].state, frame.value, w.chans[id].context))
  {
  }
}
