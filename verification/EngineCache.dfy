/** The per-campaign engine cache under any number of threads, each statement of
    factory_for and evict a step of its own. */
module EngineCache {
  import opened Options

  datatype Engine = Engine(campaign: string, disposed: bool)

  // Where a thread stands. A thread that is in neither call is not listed.
  datatype Pc =
    | WaitingForLock(campaign: string)          // the lock-free read missed
    | Rechecking(campaign: string)              // inside the lock, about to read again
    | Making(campaign: string)                  // inside the lock, the second read missed
    | Holding(campaign: string, engine: nat)    // inside the lock, engine made, not yet stored
    | Leaving(campaign: string, engine: nat)    // inside the lock, about to return this engine
    | Disposing(engine: nat)                    // evict has popped the entry

  predicate Critical(pc: Pc) {
    pc.Rechecking? || pc.Making? || pc.Holding? || pc.Leaving?
  }

  datatype Returned = Returned(campaign: string, engine: nat)

  datatype Cache = Cache(
    engines: seq<Engine>,              // every engine ever made
    cached: map<string, nat>,          // _engines
    lock: Option<nat>,                 // who is inside
    pcs: map<nat, Pc>,
    returned: seq<Returned>)           // what factory_for has answered

  datatype Event =
    | Call(thread: nat, campaign: string)
    | Acquire(thread: nat)
    | Recheck(thread: nat)
    | Make(thread: nat, ok: bool)      // make_engine_for_path may raise
    | Store(thread: nat)
    | Release(thread: nat)
    | Evict(thread: nat, campaign: string)
    | Dispose(thread: nat)

  const EMPTY := Cache([], map[], None, map[], [])

  function Step(s: Cache, e: Event): Cache {
    match e
    case Call(t, c) =>
      if t in s.pcs then s
      else if c in s.cached then s.(returned := s.returned + [Returned(c, s.cached[c])])
      else s.(pcs := s.pcs[t := WaitingForLock(c)])
    case Acquire(t) =>
      if t in s.pcs && s.pcs[t].WaitingForLock? && s.lock.None? then
        s.(lock := Some(t), pcs := s.pcs[t := Rechecking(s.pcs[t].campaign)])
      else s
    case Recheck(t) =>
      if t in s.pcs && s.pcs[t].Rechecking? then
        var c := s.pcs[t].campaign;
        s.(pcs := s.pcs[t := if c in s.cached then Leaving(c, s.cached[c]) else Making(c)])
      else s
    case Make(t, ok) =>
      if t in s.pcs && s.pcs[t].Making? then
        var c := s.pcs[t].campaign;
        if ok then s.(engines := s.engines + [Engine(c, false)], pcs := s.pcs[t := Holding(c, |s.engines|)])
        else s.(lock := None, pcs := s.pcs - {t})
      else s
    case Store(t) =>
      if t in s.pcs && s.pcs[t].Holding? then
        var Holding(c, engine) := s.pcs[t];
        s.(cached := s.cached[c := engine], pcs := s.pcs[t := Leaving(c, engine)])
      else s
    case Release(t) =>
      if t in s.pcs && s.pcs[t].Leaving? then
        s.(lock := None, pcs := s.pcs - {t}, returned := s.returned + [Returned(s.pcs[t].campaign, s.pcs[t].engine)])
      else s
    case Evict(t, c) =>
      if t in s.pcs || c !in s.cached then s
      else s.(cached := s.cached - {c}, pcs := s.pcs[t := Disposing(s.cached[c])])
    case Dispose(t) =>
      if t in s.pcs && s.pcs[t].Disposing? && s.pcs[t].engine < |s.engines| then
        var engine := s.pcs[t].engine;
        s.(engines := s.engines[engine := s.engines[engine].(disposed := true)], pcs := s.pcs - {t})
      else s
  }

  function Run(events: seq<Event>): Cache {
    if events == [] then EMPTY else Step(Run(events[..|events| - 1]), events[|events| - 1])
  }

  // ---- Where an engine can be ----

  predicate InCache(s: Cache, engine: nat)
    requires engine < |s.engines|
  {
    s.engines[engine].campaign in s.cached && s.cached[s.engines[engine].campaign] == engine
  }

  predicate HeldBy(s: Cache, engine: nat, t: nat) {
    t in s.pcs && s.pcs[t].Holding? && s.pcs[t].engine == engine
  }

  predicate PoppedBy(s: Cache, engine: nat, t: nat) {
    t in s.pcs && s.pcs[t].Disposing? && s.pcs[t].engine == engine
  }

  // Exactly one of: disposed, cached, in the lock holder's hands, popped by one thread.
  ghost predicate Placed(s: Cache, engine: nat)
    requires engine < |s.engines|
  {
    || s.engines[engine].disposed
    || InCache(s, engine)
    || (exists t :: HeldBy(s, engine, t))
    || (exists t :: PoppedBy(s, engine, t))
  }

  ghost predicate ThreadOk(s: Cache, t: nat)
    requires t in s.pcs
  {
    var pc := s.pcs[t];
    && (Critical(pc) <==> s.lock == Some(t))
    && (pc.Making? ==> pc.campaign !in s.cached)
    && (pc.Holding? ==>
          && pc.engine < |s.engines| && s.engines[pc.engine] == Engine(pc.campaign, false)
          && pc.campaign !in s.cached)
    && (pc.Leaving? ==> pc.engine < |s.engines| && s.engines[pc.engine].campaign == pc.campaign)
    && (pc.Disposing? ==>
          && pc.engine < |s.engines| && !s.engines[pc.engine].disposed && !InCache(s, pc.engine)
          && (forall u | PoppedBy(s, pc.engine, u) :: u == t) && (forall u :: !HeldBy(s, pc.engine, u)))
  }

  ghost predicate Inv(s: Cache) {
    && (s.lock.Some? ==> s.lock.value in s.pcs && Critical(s.pcs[s.lock.value]))
    && (forall t | t in s.pcs :: ThreadOk(s, t))
    && (forall c | c in s.cached ::
          s.cached[c] < |s.engines| && s.engines[s.cached[c]] == Engine(c, false))
    && (forall engine | 0 <= engine < |s.engines| :: Placed(s, engine))
    && (forall i | 0 <= i < |s.returned| ::
          s.returned[i].engine < |s.engines| && s.engines[s.returned[i].engine].campaign == s.returned[i].campaign)
  }

  // Witnesses survive a step that moves no engine between hands.
  lemma StaysPlaced(s: Cache, s': Cache, engine: nat)
    requires engine < |s.engines| <= |s'.engines| && Placed(s, engine)
    requires s'.engines[engine] == s.engines[engine]
    requires InCache(s, engine) ==> InCache(s', engine)
    requires forall t | HeldBy(s, engine, t) :: HeldBy(s', engine, t) || InCache(s', engine)
    requires forall t | PoppedBy(s, engine, t) :: PoppedBy(s', engine, t)
    ensures Placed(s', engine)
  {
    if t :| HeldBy(s, engine, t) {
      assert HeldBy(s', engine, t) || InCache(s', engine);
    } else if t :| PoppedBy(s, engine, t) {
      assert PoppedBy(s', engine, t);
    }
  }

  lemma PoppedIsPlaced(s: Cache, engine: nat, t: nat)
    requires engine < |s.engines| && PoppedBy(s, engine, t)
    ensures Placed(s, engine)
  {
  }

  lemma DisposedIsPlaced(s: Cache, engine: nat)
    requires engine < |s.engines| && s.engines[engine].disposed
    ensures Placed(s, engine)
  {
  }

  lemma MadeIsPlaced(s: Cache, e: Event)
    requires |Step(s, e).engines| > |s.engines|
    ensures Placed(Step(s, e), |s.engines|)
  {
    assert HeldBy(Step(s, e), |s.engines|, e.thread);
  }

  lemma InPlaceStepPlaces(s: Cache, e: Event, engine: nat)
    requires engine < |s.engines| && Placed(s, engine)
    requires e.Call? || e.Acquire? || e.Recheck? || e.Make? || e.Release?
    ensures Placed(Step(s, e), engine)
  {
    hide Placed;
    StaysPlaced(s, Step(s, e), engine);
  }

  lemma MovingStepPlaces(s: Cache, e: Event, engine: nat)
    requires Inv(s) && engine < |s.engines|
    requires e.Store? || e.Evict? || e.Dispose?
    ensures Placed(Step(s, e), engine)
  {
    hide Placed;
    var s' := Step(s, e);
    assert Placed(s, engine);
    if e.Evict? && s' != s && engine == s.cached[e.campaign] {
      PoppedIsPlaced(s', engine, e.thread);
    } else if e.Dispose? && s'.engines[engine].disposed {
      DisposedIsPlaced(s', engine);
    } else {
      assert e.thread in s.pcs ==> ThreadOk(s, e.thread);
      StaysPlaced(s, s', engine);
    }
  }

  lemma StepPlaces(s: Cache, e: Event, engine: nat)
    requires Inv(s) && engine < |Step(s, e).engines|
    ensures Placed(Step(s, e), engine)
  {
    hide Placed;
    if engine >= |s.engines| {
      MadeIsPlaced(s, e);
    } else if e.Store? || e.Evict? || e.Dispose? {
      MovingStepPlaces(s, e, engine);
    } else {
      assert Placed(s, engine);
      InPlaceStepPlaces(s, e, engine);
    }
  }

  lemma StepKeepsThread(s: Cache, e: Event, t: nat)
    requires Inv(s) && t in Step(s, e).pcs
    ensures ThreadOk(Step(s, e), t)
  {
    hide Placed;
    assert t in s.pcs ==> ThreadOk(s, t);
    assert e.thread in s.pcs ==> ThreadOk(s, e.thread);
    assert e.thread in s.pcs && s.pcs[e.thread].Disposing? ==> !HeldBy(s, s.pcs[e.thread].engine, t);
    DisposerStaysAlone(s, e, t);
    var s' := Step(s, e);
    if s'.pcs[t].Disposing? {
      var engine := s'.pcs[t].engine;
      assert !HeldBy(s, engine, e.thread);
      assert t in s.pcs && PoppedBy(s, engine, e.thread) ==> e.thread == t;
    }
  }

  lemma DisposerStaysAlone(s: Cache, e: Event, t: nat)
    requires Inv(s) && t in Step(s, e).pcs
    ensures var s' := Step(s, e);
      s'.pcs[t].Disposing? ==>
        (forall u | PoppedBy(s', s'.pcs[t].engine, u) :: u == t) && (forall u :: !HeldBy(s', s'.pcs[t].engine, u))
  {
    hide Placed;
    assert t in s.pcs ==> ThreadOk(s, t);
    assert e.thread in s.pcs ==> ThreadOk(s, e.thread);
    assert e.thread in s.pcs && s.pcs[e.thread].Disposing? ==> !HeldBy(s, s.pcs[e.thread].engine, t);
    var s' := Step(s, e);
    if s'.pcs[t].Disposing? {
      var engine := s'.pcs[t].engine;
      forall u ensures !HeldBy(s', engine, u) && (PoppedBy(s', engine, u) ==> u == t) {
        assert u in s.pcs ==> ThreadOk(s, u);
        assert !HeldBy(s, engine, u);
        assert t in s.pcs && PoppedBy(s, engine, u) ==> u == t;
      }
      assert !HeldBy(s, engine, e.thread);
      assert t in s.pcs && PoppedBy(s, engine, e.thread) ==> e.thread == t;
    }
  }

  lemma StepKeepsInv(s: Cache, e: Event)
    requires Inv(s)
    ensures Inv(Step(s, e))
  {
    hide Placed;
    var s' := Step(s, e);
    assert e.thread in s.pcs ==> ThreadOk(s, e.thread);
    forall engine | 0 <= engine < |s'.engines| ensures Placed(s', engine) {
      StepPlaces(s, e, engine);
    }
    forall t | t in s'.pcs ensures ThreadOk(s', t) {
      StepKeepsThread(s, e, t);
    }
  }

  lemma {:induction false} RunKeepsInv(events: seq<Event>)
    ensures Inv(Run(events))
  {
    hide Step;
    if events != [] {
      RunKeepsInv(events[..|events| - 1]);
      StepKeepsInv(Run(events[..|events| - 1]), events[|events| - 1]);
    }
  }

  // ---- What that gives a caller ----

  // No store ever overwrites an entry, so no engine is lost that way.
  lemma StoreNeverOverwrites(events: seq<Event>, t: nat)
    requires t in Run(events).pcs && Run(events).pcs[t].Holding?
    ensures Run(events).pcs[t].campaign !in Run(events).cached
    ensures Step(Run(events), Store(t)).cached.Values == Run(events).cached.Values + {Run(events).pcs[t].engine}
  {
    var s := Run(events);
    RunKeepsInv(events);
    assert ThreadOk(s, t);
    var Holding(c, engine) := s.pcs[t];
    var s' := Step(s, Store(t));
    assert c in s'.cached && s'.cached[c] == engine;
    forall k | k in s.cached ensures s.cached[k] in s'.cached.Values {
      assert s'.cached[k] == s.cached[k];
    }
  }

  // At most one thread is inside the lock.
  lemma OneInside(events: seq<Event>, t: nat, u: nat)
    requires t in Run(events).pcs && Critical(Run(events).pcs[t])
    requires u in Run(events).pcs && Critical(Run(events).pcs[u])
    ensures t == u
  {
    RunKeepsInv(events);
    assert ThreadOk(Run(events), t) && ThreadOk(Run(events), u);
  }

  // When no call is in progress, nothing has leaked: every engine ever made is either
  // the cached one of its campaign or has been disposed, and never both.
  lemma NothingLeaks(events: seq<Event>, engine: nat)
    requires Run(events).pcs == map[] && engine < |Run(events).engines|
    ensures Run(events).engines[engine].disposed <==> !InCache(Run(events), engine)
  {
    RunKeepsInv(events);
    var s := Run(events);
    assert Placed(s, engine);
    assert forall t :: !HeldBy(s, engine, t) && !PoppedBy(s, engine, t);
  }

  // Two engines of one campaign are never both undisposed unless one of them has
  // been popped for disposal.
  lemma OneLiveEngine(events: seq<Event>, a: nat, b: nat)
    requires a < |Run(events).engines| && b < |Run(events).engines| && a != b
    requires Run(events).engines[a].campaign == Run(events).engines[b].campaign
    requires !Run(events).engines[a].disposed && !Run(events).engines[b].disposed
    ensures exists t :: PoppedBy(Run(events), a, t) || PoppedBy(Run(events), b, t)
  {
    var s := Run(events);
    RunKeepsInv(events);
    assert Placed(s, a) && Placed(s, b);
    forall t | HeldBy(s, a, t) ensures !InCache(s, b) && forall u :: !HeldBy(s, b, u) {
      assert ThreadOk(s, t);
      forall u ensures !HeldBy(s, b, u) {
        assert u in s.pcs ==> ThreadOk(s, u);
      }
    }
    forall t | HeldBy(s, b, t) ensures !InCache(s, a) {
      assert ThreadOk(s, t);
    }
  }

  // Every factory handed out belongs to an engine of the campaign asked for.
  lemma AnswersMatch(events: seq<Event>, i: nat)
    requires i < |Run(events).returned|
    ensures
      var r := Run(events).returned[i];
      r.engine < |Run(events).engines| && Run(events).engines[r.engine].campaign == r.campaign
  {
    RunKeepsInv(events);
  }

  // ---- The two calls as a thread makes them, undisturbed ----

  function Steps(s: Cache, events: seq<Event>): Cache
    decreases |events|
  {
    if events == [] then s else Steps(Step(s, events[0]), events[1..])
  }

  function FactoryForSteps(t: nat, campaign: string, ok: bool): seq<Event> {
    [Call(t, campaign), Acquire(t), Recheck(t), Make(t, ok), Store(t), Release(t)]
  }

  // Alone, factory_for answers with the cached engine or with a new one that it
  // caches, and changes nothing when the engine cannot be made.
  lemma UndisturbedFactoryFor(s: Cache, t: nat, campaign: string, makes: bool)
    requires t !in s.pcs && s.lock.None?
    ensures Steps(s, FactoryForSteps(t, campaign, makes)) ==
      if campaign in s.cached then s.(returned := s.returned + [Returned(campaign, s.cached[campaign])])
      else if makes then
        Cache(s.engines + [Engine(campaign, false)], s.cached[campaign := |s.engines|], None, s.pcs,
              s.returned + [Returned(campaign, |s.engines|)])
      else s
  {
    hide Steps;
    var s1 := Step(s, Call(t, campaign));
    var s2 := Step(s1, Acquire(t));
    var s3 := Step(s2, Recheck(t));
    var s4 := Step(s3, Make(t, makes));
    var s5 := Step(s4, Store(t));
    var s6 := Step(s5, Release(t));
    SixSteps(s, Call(t, campaign), Acquire(t), Recheck(t), Make(t, makes), Store(t), Release(t));
    assert s6.pcs == s.pcs;
  }

  lemma StepsCons(s: Cache, a: Event, rest: seq<Event>)
    ensures Steps(s, [a] + rest) == Steps(Step(s, a), rest)
  {
    hide Step;
    assert ([a] + rest)[1..] == rest;
  }

  lemma SixSteps(s: Cache, a: Event, b: Event, c: Event, d: Event, e: Event, f: Event)
    ensures Steps(s, [a, b, c, d, e, f]) == Step(Step(Step(Step(Step(Step(s, a), b), c), d), e), f)
  {
    hide Step, Steps;
    var s2 := Step(Step(s, a), b);
    var s4 := Step(Step(s2, c), d);
    TwoSteps(s4, e, f);
    StepsCons(Step(s2, c), d, [e, f]);
    StepsCons(s2, c, [d, e, f]);
    StepsCons(Step(s, a), b, [c, d, e, f]);
    StepsCons(s, a, [b, c, d, e, f]);
    assert [d] + [e, f] == [d, e, f] && [c] + [d, e, f] == [c, d, e, f];
    assert [b] + [c, d, e, f] == [b, c, d, e, f] && [a] + [b, c, d, e, f] == [a, b, c, d, e, f];
  }

  lemma TwoSteps(s: Cache, a: Event, b: Event)
    ensures Steps(s, [a, b]) == Step(Step(s, a), b)
  {
    hide Step;
    StepsCons(s, a, [b]);
    StepsCons(Step(s, a), b, []);
    assert [a] + [b] == [a, b] && [b] + [] == [b];
  }

  // And evict takes the entry out and disposes of exactly that engine.
  lemma UndisturbedEvict(s: Cache, t: nat, campaign: string)
    requires t !in s.pcs && (campaign in s.cached ==> s.cached[campaign] < |s.engines|)
    ensures Steps(s, [Evict(t, campaign), Dispose(t)]) ==
      if campaign in s.cached then
        var engine := s.cached[campaign];
        s.(cached := s.cached - {campaign}, engines := s.engines[engine := s.engines[engine].(disposed := true)])
      else s
  {
    hide Steps;
    TwoSteps(s, Evict(t, campaign), Dispose(t));
    var s1 := Step(s, Evict(t, campaign));
    var s2 := Step(s1, Dispose(t));
    if campaign in s.cached {
      assert s1.pcs[t] == Disposing(s.cached[campaign]);
    }
    assert s2.pcs == s.pcs;
  }
}
