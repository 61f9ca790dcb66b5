/** The settings file under concurrent updates, failing writes and lock-free readers,
    each file operation a step of its own. */
module SettingsStore {
  import opened Options

  datatype Value = Null | Other(json: string)

  type Settings = map<string, Value>

  // What is on disk. Anything but a JSON object reads as empty.
  datatype File = Missing | Unreadable | NotAnObject | Object(settings: Settings)

  function Load(file: File): Settings {
    if file.Object? then file.settings else map[]
  }

  // A key updated to None goes; other keys, known or not, stay.
  function Merge(current: Settings, updates: Settings): (r: Settings)
    ensures forall k :: k in r <==> if k in updates then updates[k] != Null else k in current
    ensures forall k | k in r :: r[k] == if k in updates then updates[k] else current[k]
  {
    map k | k in current.Keys + updates.Keys && (if k in updates then updates[k] != Null else true)
      :: if k in updates then updates[k] else current[k]
  }

  // The loop in update_settings.
  method MergeInto(current: Settings, updates: Settings) returns (r: Settings)
    ensures r == Merge(current, updates)
  {
    r := current;
    var rest := updates.Keys;
    while rest != {}
      invariant rest <= updates.Keys
      invariant forall k :: k in r <==> if k in updates && k !in rest then updates[k] != Null else k in current
      invariant forall k | k in r :: r[k] == if k in updates && k !in rest then updates[k] else current[k]
      decreases rest
    {
      var k :| k in rest;
      rest := rest - {k};
      if updates[k] == Null {
        r := r - {k};
      } else {
        r := r[k := updates[k]];
      }
    }
  }

  datatype Pc =
    | Waiting(updates: Settings)
    | Inside(updates: Settings)                        // holds the lock
    | Merged(updates: Settings, payload: Settings)     // has read and merged
    | Written(updates: Settings, payload: Settings)    // temp file complete
    | Replaced(payload: Settings)                      // os.replace done
    | Failed                                           // an exception on its way out of the lock

  datatype Store = Store(
    file: File,
    lock: Option<nat>,
    pcs: map<nat, Pc>,
    temps: set<nat>,               // threads whose temp file exists
    stranded: nat,                 // temp files whose removal failed
    committed: seq<Settings>,      // updates replaced onto the file, in order
    answers: seq<Settings>,        // what completed calls returned, in the order of their commits
    observed: seq<Settings>)       // what lock-free readers have seen

  datatype Event =
    | Begin(thread: nat, updates: Settings)
    | Acquire(thread: nat)
    | ReadAndMerge(thread: nat)
    | WriteTemp(thread: nat, ok: bool, removed: bool)   // removed: what unlink does if not ok
    | Replace(thread: nat, ok: bool, removed: bool)
    | Leave(thread: nat)
    | ReadOnly

  function Start(file: File): Store {
    Store(file, None, map[], {}, 0, [], [], [])
  }

  function Left(removed: bool): nat {
    if removed then 0 else 1
  }

  function Step(s: Store, e: Event): Store {
    match e
    case Begin(t, updates) => if t in s.pcs then s else s.(pcs := s.pcs[t := Waiting(updates)])
    case Acquire(t) =>
      if t in s.pcs && s.pcs[t].Waiting? && s.lock.None? then
        s.(lock := Some(t), pcs := s.pcs[t := Inside(s.pcs[t].updates)])
      else s
    case ReadAndMerge(t) =>
      if t in s.pcs && s.pcs[t].Inside? then
        s.(pcs := s.pcs[t := Merged(s.pcs[t].updates, Merge(Load(s.file), s.pcs[t].updates))])
      else s
    case WriteTemp(t, ok, removed) =>
      if t in s.pcs && s.pcs[t].Merged? then
        if ok then s.(temps := s.temps + {t}, pcs := s.pcs[t := Written(s.pcs[t].updates, s.pcs[t].payload)])
        else s.(pcs := s.pcs[t := Failed], stranded := s.stranded + Left(removed))
      else s
    case Replace(t, ok, removed) =>
      if t in s.pcs && s.pcs[t].Written? then
        var Written(updates, payload) := s.pcs[t];
        if ok then
          s.(file := Object(payload), temps := s.temps - {t}, committed := s.committed + [updates],
             answers := s.answers + [payload], pcs := s.pcs[t := Replaced(payload)])
        else s.(temps := s.temps - {t}, pcs := s.pcs[t := Failed], stranded := s.stranded + Left(removed))
      else s
    case Leave(t) =>
      if t in s.pcs && (s.pcs[t].Replaced? || s.pcs[t].Failed?) then s.(lock := None, pcs := s.pcs - {t})
      else s
    case ReadOnly => s.(observed := s.observed + [Load(s.file)])
  }

  function Run(file: File, events: seq<Event>): Store {
    if events == [] then Start(file) else Step(Run(file, events[..|events| - 1]), events[|events| - 1])
  }

  // Merging updates one after another.
  function Fold(initial: Settings, updates: seq<Settings>): Settings {
    if updates == [] then initial
    else Merge(Fold(initial, updates[..|updates| - 1]), updates[|updates| - 1])
  }

  predicate Locked(pc: Pc) {
    !pc.Waiting?
  }

  ghost predicate ThreadOk(s: Store, t: nat)
    requires t in s.pcs
  {
    && (Locked(s.pcs[t]) <==> s.lock == Some(t))
    && (s.pcs[t].Merged? || s.pcs[t].Written? ==> s.pcs[t].payload == Merge(Load(s.file), s.pcs[t].updates))
    && (t in s.temps <==> s.pcs[t].Written?)
  }

  ghost predicate Seen(initial: Settings, committed: seq<Settings>, r: Settings) {
    exists n | 0 <= n <= |committed| :: r == Fold(initial, committed[..n])
  }

  ghost predicate Inv(file: File, s: Store) {
    && (s.lock.Some? ==> s.lock.value in s.pcs && Locked(s.pcs[s.lock.value]))
    && (forall t | t in s.pcs :: ThreadOk(s, t))
    && s.temps <= s.pcs.Keys
    && Load(s.file) == Fold(Load(file), s.committed)
    && (s.committed == [] ==> s.file == file)
    && |s.answers| == |s.committed|
    && (forall i | 0 <= i < |s.answers| :: s.answers[i] == Fold(Load(file), s.committed[..i + 1]))
    && (forall i | 0 <= i < |s.observed| :: Seen(Load(file), s.committed, s.observed[i]))
  }

  lemma FoldSnoc(initial: Settings, updates: seq<Settings>, u: Settings)
    ensures Fold(initial, updates + [u]) == Merge(Fold(initial, updates), u)
  {
    hide Merge;
    assert (updates + [u])[..|updates|] == updates;
  }

  lemma StillSeen(initial: Settings, committed: seq<Settings>, u: Settings, r: Settings)
    requires Seen(initial, committed, r)
    ensures Seen(initial, committed + [u], r)
  {
    var n :| 0 <= n <= |committed| && r == Fold(initial, committed[..n]);
    assert (committed + [u])[..n] == committed[..n];
  }

  lemma SeenNow(initial: Settings, committed: seq<Settings>)
    ensures Seen(initial, committed, Fold(initial, committed))
  {
    assert committed[..|committed|] == committed;
  }

  lemma ReplaceKeepsInv(file: File, s: Store, t: nat)
    requires Inv(file, s) && t in s.pcs && s.pcs[t].Written?
    ensures Inv(file, Step(s, Replace(t, true, true)))
  {
    hide Fold, Merge, Seen;
    var s' := Step(s, Replace(t, true, true));
    var Written(updates, payload) := s.pcs[t];
    assert ThreadOk(s, t);
    FoldSnoc(Load(file), s.committed, updates);
    forall i | 0 <= i < |s'.answers| ensures s'.answers[i] == Fold(Load(file), s'.committed[..i + 1]) {
      if i < |s.answers| {
        assert s'.committed[..i + 1] == s.committed[..i + 1];
      } else {
        assert s'.committed[..i + 1] == s'.committed;
      }
    }
    forall i | 0 <= i < |s'.observed| ensures Seen(Load(file), s'.committed, s'.observed[i]) {
      StillSeen(Load(file), s.committed, updates, s.observed[i]);
    }
    forall u | u in s'.pcs ensures ThreadOk(s', u) {
      assert ThreadOk(s, u);
    }
  }

  lemma StepKeepsInv(file: File, s: Store, e: Event)
    requires Inv(file, s)
    ensures Inv(file, Step(s, e))
  {
    hide Fold, Merge, Seen;
    var s' := Step(s, e);
    if e.Replace? && e.ok && e.thread in s.pcs && s.pcs[e.thread].Written? {
      ReplaceKeepsInv(file, s, e.thread);
      assert Step(s, e) == Step(s, Replace(e.thread, true, true));
    } else {
      assert !e.ReadOnly? && e.thread in s.pcs ==> ThreadOk(s, e.thread);
      forall u | u in s'.pcs ensures ThreadOk(s', u) {
        assert u in s.pcs ==> ThreadOk(s, u);
      }
      SeenNow(Load(file), s.committed);
    }
  }

  lemma {:induction false} RunKeepsInv(file: File, events: seq<Event>)
    ensures Inv(file, Run(file, events))
  {
    hide Step;
    if events != [] {
      RunKeepsInv(file, events[..|events| - 1]);
      StepKeepsInv(file, Run(file, events[..|events| - 1]), events[|events| - 1]);
    }
  }

  // ---- What that gives a caller ----

  // Linearizable: the calls that succeeded take effect one at a time in the order of
  // their commits; each returns the settings as they stood right after its own merge;
  // a reader sees the settings as they stood between two of them, never a mixture.
  lemma Linearizable(file: File, events: seq<Event>)
    ensures
      var s := Run(file, events);
      && Load(s.file) == Fold(Load(file), s.committed)
      && |s.answers| == |s.committed|
      && (forall i | 0 <= i < |s.answers| :: s.answers[i] == Fold(Load(file), s.committed[..i + 1]))
      && (forall i | 0 <= i < |s.observed| ::
            exists n | 0 <= n <= |s.committed| :: s.observed[i] == Fold(Load(file), s.committed[..n]))
  {
    RunKeepsInv(file, events);
    forall i | 0 <= i < |Run(file, events).observed|
      ensures exists n | 0 <= n <= |Run(file, events).committed| ::
        Run(file, events).observed[i] == Fold(Load(file), Run(file, events).committed[..n])
    {
      assert Seen(Load(file), Run(file, events).committed, Run(file, events).observed[i]);
    }
  }

  // No update is lost: after any number of commits a key holds what the last commit
  // that names it said, and a key no commit names holds what it held at the start.
  ghost predicate LastSaid(initial: Settings, updates: seq<Settings>, k: string, r: Settings) {
    if exists i | 0 <= i < |updates| :: k in updates[i] then
      exists i | 0 <= i < |updates| :: k in updates[i]
        && (forall j | i < j < |updates| :: k !in updates[j])
        && (k in r <==> updates[i][k] != Null) && (k in r ==> r[k] == updates[i][k])
    else
      (k in r <==> k in initial) && (k in r ==> r[k] == initial[k])
  }

  lemma {:induction false} NoUpdateIsLost(initial: Settings, updates: seq<Settings>, k: string)
    ensures LastSaid(initial, updates, k, Fold(initial, updates))
  {
    if updates != [] {
      var earlier, last := updates[..|updates| - 1], updates[|updates| - 1];
      NoUpdateIsLost(initial, earlier, k);
      assert updates == earlier + [last];
      if k in last {
        assert k in updates[|updates| - 1];
      } else if exists i | 0 <= i < |earlier| :: k in earlier[i] {
        var r := Fold(initial, earlier);
        var i :| 0 <= i < |earlier| && k in earlier[i]
          && (forall j | i < j < |earlier| :: k !in earlier[j])
          && (k in r <==> earlier[i][k] != Null) && (k in r ==> r[k] == earlier[i][k]);
        assert updates[i] == earlier[i];
      } else {
        forall i | 0 <= i < |updates| ensures k !in updates[i] {
        }
      }
    }
  }

  // One call with nobody in its way.
  function Undisturbed(s: Store, thread: nat, updates: Settings): Store {
    var held := Step(Step(s, Begin(thread, updates)), Acquire(thread));
    var written := Step(Step(held, ReadAndMerge(thread)), WriteTemp(thread, true, true));
    Step(Step(written, Replace(thread, true, true)), Leave(thread))
  }

  // It leaves on disk, and returns, the old settings overlaid with its updates.
  lemma UndisturbedUpdate(s: Store, thread: nat, updates: Settings)
    requires thread !in s.pcs && s.lock == None
    ensures var s' := Undisturbed(s, thread, updates);
      && s'.file.Object? && s'.answers == s.answers + [s'.file.settings] && s'.committed == s.committed + [updates]
      && s'.lock == None && s'.pcs == s.pcs && s'.stranded == s.stranded && s'.temps == s.temps - {thread}
      && (forall k :: k in s'.file.settings <==>
            (k in updates && updates[k] != Null) || (k !in updates && s.file.Object? && k in s.file.settings))
      && (forall k | k in s'.file.settings ::
            s'.file.settings[k] == if k in updates then updates[k] else s.file.settings[k])
  {
    var held := Step(Step(s, Begin(thread, updates)), Acquire(thread));
    assert held.pcs == s.pcs[thread := Inside(updates)];
    var merged := Step(held, ReadAndMerge(thread));
    assert merged.pcs == s.pcs[thread := Merged(updates, Merge(Load(s.file), updates))];
    assert Undisturbed(s, thread, updates).pcs == s.pcs;
  }

  // A call whose write fails, at the temp file or at the replace, leaves the file and the
  // answers alone, lets go of the lock and raises: it is gone and has returned nothing.
  function Failing(s: Store, thread: nat, updates: Settings, atReplace: bool, removed: bool): Store {
    var held := Step(Step(s, Begin(thread, updates)), Acquire(thread));
    var tried := Step(Step(held, ReadAndMerge(thread)), WriteTemp(thread, atReplace, removed));
    Step(if atReplace then Step(tried, Replace(thread, false, removed)) else tried, Leave(thread))
  }

  lemma FailedCallLetsGo(s: Store, thread: nat, updates: Settings, atReplace: bool, removed: bool)
    requires thread !in s.pcs && s.lock == None
    ensures var s' := Failing(s, thread, updates, atReplace, removed);
      && s'.file == s.file && s'.answers == s.answers && s'.committed == s.committed
      && s'.lock == None && s'.pcs == s.pcs && s'.stranded == s.stranded + (if removed then 0 else 1)
      && s'.temps == if atReplace then s.temps - {thread} else s.temps
  {
    var held := Step(Step(s, Begin(thread, updates)), Acquire(thread));
    assert held.pcs == s.pcs[thread := Inside(updates)];
    var merged := Step(held, ReadAndMerge(thread));
    assert merged.pcs == s.pcs[thread := Merged(updates, Merge(Load(s.file), updates))];
    var tried := Step(merged, WriteTemp(thread, atReplace, removed));
    assert atReplace ==> tried.pcs == s.pcs[thread := Written(updates, Merge(Load(s.file), updates))];
    assert Failing(s, thread, updates, atReplace, removed).pcs == s.pcs;
  }

  // A reader never waits: at any moment, lock held or not, it gets what is on disk.
  lemma ReadersNeverWait(s: Store)
    ensures Step(s, ReadOnly) == s.(observed := s.observed + [if s.file.Object? then s.file.settings else map[]])
  {
  }

  // However many calls fail, and however they interleave, the file is what it was as
  // long as no replace succeeds.
  lemma {:induction false} FailedWritesChangeNothing(file: File, before: seq<Event>, after: seq<Event>)
    requires forall i | 0 <= i < |after| :: !(after[i].Replace? && after[i].ok)
    ensures Run(file, before + after).file == Run(file, before).file
    ensures Run(file, before + after).committed == Run(file, before).committed
    ensures Run(file, before + after).answers == Run(file, before).answers
  {
    hide Step;
    if after == [] {
      assert before + after == before;
    } else {
      var all := before + after;
      FailedWritesChangeNothing(file, before, after[..|after| - 1]);
      assert all[..|all| - 1] == before + after[..|after| - 1];
      OnlyReplaceWrites(Run(file, before + after[..|after| - 1]), after[|after| - 1]);
    }
  }

  lemma OnlyReplaceWrites(s: Store, e: Event)
    requires !(e.Replace? && e.ok)
    ensures Step(s, e).file == s.file && Step(s, e).committed == s.committed && Step(s, e).answers == s.answers
  {
  }

  // The removal of a temp file is itself tried only once.
  predicate Strands(s: Store, e: Event) {
    && ((e.WriteTemp? && e.thread in s.pcs && s.pcs[e.thread].Merged?)
        || (e.Replace? && e.thread in s.pcs && s.pcs[e.thread].Written?))
    && !e.ok && !e.removed
  }

  lemma {:induction false} StrandedByFailedRemovals(file: File, events: seq<Event>)
    ensures Run(file, events).stranded == 0 <==>
      forall i | 0 <= i < |events| :: !Strands(Run(file, events[..i]), events[i])
  {
    hide Step, Strands;
    if events != [] {
      var earlier := events[..|events| - 1];
      StrandedByFailedRemovals(file, earlier);
      StepStrands(Run(file, earlier), events[|events| - 1]);
      forall i | 0 <= i < |earlier|
        ensures earlier[..i] == events[..i] && earlier[i] == events[i]
      {
      }
    }
  }

  lemma StepStrands(s: Store, e: Event)
    ensures Step(s, e).stranded == s.stranded + if Strands(s, e) then 1 else 0
  {
  }

  // Once every call has returned, the only temp files left are those whose removal failed.
  lemma NoTempLeft(file: File, events: seq<Event>)
    requires Run(file, events).pcs == map[]
    ensures Run(file, events).temps == {} && Run(file, events).lock == None
    ensures Run(file, events).stranded == 0 <==>
      forall i | 0 <= i < |events| :: !Strands(Run(file, events[..i]), events[i])
  {
    RunKeepsInv(file, events);
    StrandedByFailedRemovals(file, events);
  }
}
