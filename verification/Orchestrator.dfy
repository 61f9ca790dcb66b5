/** The per-campaign ingest registry: spawn, switch, cancel and the done-callback,
    as steps of the event loop. */
module Orchestrator {
  import opened Options

  // A task runs, may be asked to stop, ends, and some time later the loop delivers
  // its done-callback.
  datatype Phase = Running | Ended | Reaped

  datatype Task = Task(campaign: string, cancelled: bool, phase: Phase)

  datatype Registry = Registry(
    tasks: seq<Task>,                    // every task ever created, by identity
    ingest: map<string, nat>,            // ingest_tasks
    schedulers: map<string, nat>)        // narrative_schedulers: whose scheduler it is

  datatype LoopEvent =
    | Spawn(campaign: string)                       // adopt-from-save, or startup
    | SchedulerReady(task: nat)
    | ForeignSave(campaign: string, other: string)  // _do_switch, marshalled onto the loop
    | Finish(task: nat)                             // the coroutine returns, raises or is cancelled
    | DoneCallback(task: nat)
    | Shutdown

  const EMPTY := Registry([], map[], map[])

  predicate Live(r: Registry, t: nat) {
    t < |r.tasks| && r.tasks[t].phase == Running
  }

  // Running and not asked to stop.
  predicate Active(r: Registry, t: nat) {
    Live(r, t) && !r.tasks[t].cancelled
  }

  function SpawnFor(r: Registry, campaign: string): Registry {
    if campaign in r.ingest && Live(r, r.ingest[campaign]) then r
    else
      r.(tasks := r.tasks + [Task(campaign, false, Running)], ingest := r.ingest[campaign := |r.tasks|])
  }

  function Cancel(r: Registry, t: nat): Registry
    requires t < |r.tasks|
  {
    r.(tasks := r.tasks[t := r.tasks[t].(cancelled := true)])
  }

  function DoSwitch(r: Registry, campaign: string, other: string): Registry {
    if other == campaign then r
    else
      var r1 := SpawnFor(r, other);
      if campaign in r1.ingest && Live(r1, r1.ingest[campaign]) then
        Cancel(r1.(ingest := r1.ingest - {campaign}, schedulers := r1.schedulers - {campaign}), r1.ingest[campaign])
      else r1
  }

  function OnDone(r: Registry, t: nat): Registry
    requires t < |r.tasks|
  {
    var campaign := r.tasks[t].campaign;
    r.(tasks := r.tasks[t := r.tasks[t].(phase := Reaped)],
       ingest := r.ingest - {campaign}, schedulers := r.schedulers - {campaign})
  }

  ghost function CancelRegistered(r: Registry): (r': Registry)
    ensures |r'.tasks| == |r.tasks| && r'.ingest == r.ingest && r'.schedulers == r.schedulers
    ensures forall t | 0 <= t < |r.tasks| :: r'.tasks[t] == Asked(r.tasks[t], t in r.ingest.Values)
  {
    r.(tasks := seq(|r.tasks|, t requires 0 <= t < |r.tasks| => Asked(r.tasks[t], t in r.ingest.Values)))
  }

  function Asked(task: Task, registered: bool): Task {
    if registered && task.phase == Running then task.(cancelled := true) else task
  }

  ghost function Step(r: Registry, e: LoopEvent): Registry {
    match e
    case Spawn(campaign) => SpawnFor(r, campaign)
    case SchedulerReady(t) =>
      if Live(r, t) then r.(schedulers := r.schedulers[r.tasks[t].campaign := t]) else r
    case ForeignSave(campaign, other) => DoSwitch(r, campaign, other)
    case Finish(t) => if Live(r, t) then r.(tasks := r.tasks[t := r.tasks[t].(phase := Ended)]) else r
    case DoneCallback(t) => if t < |r.tasks| && r.tasks[t].phase == Ended then OnDone(r, t) else r
    case Shutdown => CancelRegistered(r)
  }

  ghost function Run(events: seq<LoopEvent>): Registry {
    if events == [] then EMPTY else Step(Run(events[..|events| - 1]), events[|events| - 1])
  }

  // ---- One active ingest per campaign, and it is the registered one ----

  ghost predicate WellFormed(r: Registry) {
    forall c <- r.ingest :: r.ingest[c] < |r.tasks| && r.tasks[r.ingest[c]].campaign == c
  }

  predicate Registered(r: Registry, t: nat)
    requires t < |r.tasks|
  {
    r.tasks[t].campaign in r.ingest && r.ingest[r.tasks[t].campaign] == t
  }

  ghost predicate SingleConsumer(r: Registry) {
    WellFormed(r) && forall t | 0 <= t < |r.tasks| && Active(r, t) :: Registered(r, t)
  }

  lemma AtMostOne(r: Registry, t: nat, u: nat)
    requires SingleConsumer(r) && Active(r, t) && Active(r, u) && r.tasks[t].campaign == r.tasks[u].campaign
    ensures t == u
  {
    assert Registered(r, t) && Registered(r, u);
  }

  lemma StepKeepsWellFormed(r: Registry, e: LoopEvent)
    requires WellFormed(r)
    ensures WellFormed(Step(r, e))
  {
  }

  // A callback that would pop somebody else's entry: the task it is for has been
  // superseded in the registry by one that is still active.
  ghost predicate Superseded(r: Registry, t: nat)
    requires t < |r.tasks|
  {
    var c := r.tasks[t].campaign;
    c in r.ingest && r.ingest[c] != t && Active(r, r.ingest[c])
  }

  // Exactly one kind of step can break the property: a done-callback delivered after
  // its campaign has been spawned again.
  lemma KeptUnlessSuperseded(r: Registry, e: LoopEvent)
    requires SingleConsumer(r)
    ensures SingleConsumer(Step(r, e)) <==>
      !(e.DoneCallback? && e.task < |r.tasks| && r.tasks[e.task].phase == Ended && Superseded(r, e.task))
  {
    if e.DoneCallback? && e.task < |r.tasks| && r.tasks[e.task].phase == Ended && Superseded(r, e.task) {
      SupersededBreaks(r, e.task);
    } else {
      OtherwiseKept(r, e);
    }
  }

  lemma SupersededBreaks(r: Registry, t: nat)
    requires SingleConsumer(r) && t < |r.tasks| && r.tasks[t].phase == Ended && Superseded(r, t)
    ensures !SingleConsumer(OnDone(r, t))
  {
    var r', u := OnDone(r, t), r.ingest[r.tasks[t].campaign];
    assert Active(r', u) && !Registered(r', u);
  }

  lemma OtherwiseKept(r: Registry, e: LoopEvent)
    requires SingleConsumer(r)
    requires !(e.DoneCallback? && e.task < |r.tasks| && r.tasks[e.task].phase == Ended && Superseded(r, e.task))
    ensures SingleConsumer(Step(r, e))
  {
    StepKeepsWellFormed(r, e);
    match e {
      case Spawn(campaign) => SpawnKeeps(r, campaign);
      case ForeignSave(campaign, other) =>
        if other != campaign {
          SpawnKeeps(r, other);
          var r1 := SpawnFor(r, other);
          if campaign in r1.ingest && Live(r1, r1.ingest[campaign]) {
            SwitchKeeps(r1, campaign);
          }
        }
      case _ =>
        forall t | 0 <= t < |Step(r, e).tasks| && Active(Step(r, e), t)
          ensures Registered(Step(r, e), t)
        {
          assert Active(r, t) ==> Registered(r, t);
        }
    }
  }

  lemma SpawnKeeps(r: Registry, campaign: string)
    requires SingleConsumer(r)
    ensures SingleConsumer(SpawnFor(r, campaign))
  {
    var r' := SpawnFor(r, campaign);
    forall t | 0 <= t < |r'.tasks| && Active(r', t)
      ensures Registered(r', t)
    {
      assert t < |r.tasks| && Active(r, t) ==> Registered(r, t);
    }
  }

  lemma SwitchKeeps(r: Registry, campaign: string)
    requires SingleConsumer(r) && campaign in r.ingest && Live(r, r.ingest[campaign])
    ensures SingleConsumer(Cancel(r.(ingest := r.ingest - {campaign}, schedulers := r.schedulers - {campaign}),
      r.ingest[campaign]))
  {
    var r' := Cancel(r.(ingest := r.ingest - {campaign}, schedulers := r.schedulers - {campaign}), r.ingest[campaign]);
    forall t | 0 <= t < |r'.tasks| && Active(r', t)
      ensures Registered(r', t)
    {
      assert Active(r, t) ==> Registered(r, t);
    }
  }

  // ---- Runs in which every callback is delivered before its campaign is spawned again ----

  function SpawnTarget(e: LoopEvent): Option<string> {
    match e
    case Spawn(campaign) => Some(campaign)
    case ForeignSave(campaign, other) => if other == campaign then None else Some(other)
    case _ => None
  }

  // A task about to be created finds all its predecessors' callbacks delivered.
  ghost predicate Prompt(r: Registry, e: LoopEvent) {
    var target := SpawnTarget(e);
    target.Some? && !(target.value in r.ingest && Live(r, r.ingest[target.value])) ==>
      forall t | 0 <= t < |r.tasks| && r.tasks[t].campaign == target.value :: r.tasks[t].phase == Reaped
  }

  // A task whose callback is still to come has its campaign's entry, or nobody has.
  ghost predicate Undisputed(r: Registry) {
    forall t | 0 <= t < |r.tasks| && r.tasks[t].phase != Reaped && r.tasks[t].campaign in r.ingest :: Registered(r, t)
  }

  lemma SpawnKeepsUndisputed(r: Registry, campaign: string)
    requires WellFormed(r) && Undisputed(r) && Prompt(r, Spawn(campaign))
    ensures Undisputed(SpawnFor(r, campaign)) && WellFormed(SpawnFor(r, campaign))
  {
    var r' := SpawnFor(r, campaign);
    forall t | 0 <= t < |r'.tasks| && r'.tasks[t].phase != Reaped && r'.tasks[t].campaign in r'.ingest ensures Registered(r', t) {
      assert t < |r.tasks| && r.tasks[t].campaign in r.ingest ==> Registered(r, t);
    }
  }

  lemma StepKeepsUndisputed(r: Registry, e: LoopEvent)
    requires WellFormed(r) && Undisputed(r) && Prompt(r, e)
    ensures Undisputed(Step(r, e))
  {
    hide SpawnFor;
    if SpawnTarget(e).Some? {
      SpawnKeepsUndisputed(r, SpawnTarget(e).value);
    }
    forall t | 0 <= t < |r.tasks| && r.tasks[t].phase != Reaped && r.tasks[t].campaign in r.ingest ensures Registered(r, t) {
    }
  }

  lemma {:induction false} PromptRunsAreSingle(events: seq<LoopEvent>)
    requires forall i | 0 <= i < |events| :: Prompt(Run(events[..i]), events[i])
    ensures SingleConsumer(Run(events)) && Undisputed(Run(events))
  {
    hide Step;
    if events != [] {
      var earlier := events[..|events| - 1];
      forall i | 0 <= i < |earlier| ensures Prompt(Run(earlier[..i]), earlier[i]) {
        assert earlier[..i] == events[..i];
      }
      PromptRunsAreSingle(earlier);
      var r := Run(earlier);
      KeptUnlessSuperseded(r, events[|events| - 1]);
      StepKeepsUndisputed(r, events[|events| - 1]);
    }
  }

  // ---- Why the proviso is needed ----

  lemma RunSnoc(events: seq<LoopEvent>, e: LoopEvent)
    ensures Run(events + [e]) == Step(Run(events), e)
  {
    hide Step;
    assert (events + [e])[..|events|] == events;
  }

  // A to B to A before A's first task has been reaped: its callback, popping by
  // campaign and not by task, removes the entry of the task that replaced it.
  const THERE_AND_BACK: seq<LoopEvent> :=
    [] + [Spawn("A")] + [ForeignSave("A", "B")] + [ForeignSave("B", "A")] + [Finish(0)] + [DoneCallback(0)]

  lemma ThereAndBackOrphans()
    ensures
      var r := Run(THERE_AND_BACK);
      |r.tasks| == 3 && Active(r, 2) && r.tasks[2].campaign == "A" && r.ingest == map[]
  {
    RunSnoc([], Spawn("A"));
    RunSnoc([] + [Spawn("A")], ForeignSave("A", "B"));
    RunSnoc([] + [Spawn("A")] + [ForeignSave("A", "B")], ForeignSave("B", "A"));
    RunSnoc([] + [Spawn("A")] + [ForeignSave("A", "B")] + [ForeignSave("B", "A")], Finish(0));
    RunSnoc([] + [Spawn("A")] + [ForeignSave("A", "B")] + [ForeignSave("B", "A")] + [Finish(0)], DoneCallback(0));
    assert "A" != "B";
  }

  // From there one more adoption gives the campaign two active consumers, and the
  // shutdown loop, which walks the registry, never asks the orphan to stop.
  lemma ThereAndBackDoubles()
    ensures
      var r := Run(THERE_AND_BACK + [Spawn("A")]);
      && |r.tasks| == 4 && r.tasks[2].campaign == "A" == r.tasks[3].campaign
      && Active(r, 2) && Active(r, 3) && Active(Step(r, Shutdown), 2)
  {
    ThereAndBackOrphans();
    RunSnoc(THERE_AND_BACK, Spawn("A"));
    var r := Run(THERE_AND_BACK + [Spawn("A")]);
    assert r.ingest == map["A" := 3];
  }

  // ---- What else a step leaves alone ----

  // A task is only ever asked to stop by a foreign save that switches away from its
  // own campaign, or by shutdown; a save matching the campaign itself stops nothing.
  lemma WhoCancels(r: Registry, e: LoopEvent, t: nat)
    requires WellFormed(r) && t < |r.tasks| && !r.tasks[t].cancelled
    requires t < |Step(r, e).tasks| && Step(r, e).tasks[t].cancelled
    ensures Registered(r, t) && Live(r, t)
    ensures e.Shutdown? || (e.ForeignSave? && e.campaign == r.tasks[t].campaign && e.other != e.campaign)
  {
    if e.Shutdown? {
      var c :| c in r.ingest && r.ingest[c] == t;
    }
  }

  // Steps about one campaign leave every other campaign's task and scheduler
  // reachable.
  lemma OtherCampaignsUntouched(r: Registry, e: LoopEvent, c: string)
    requires WellFormed(r)
    requires e.Spawn? ==> e.campaign != c
    requires e.ForeignSave? ==> e.campaign != c && e.other != c
    requires e.SchedulerReady? || e.DoneCallback? || e.Finish? ==> e.task < |r.tasks| && r.tasks[e.task].campaign != c
    ensures c in r.ingest <==> c in Step(r, e).ingest
    ensures c in r.ingest ==> Step(r, e).ingest[c] == r.ingest[c]
    ensures c in r.schedulers <==> c in Step(r, e).schedulers
    ensures c in r.schedulers ==> Step(r, e).schedulers[c] == r.schedulers[c]
  {
  }

  // ---- What the registry holds, read off the run ----

  datatype Table = IngestTasks | NarrativeSchedulers

  function Entries(r: Registry, table: Table): map<string, nat> {
    if table == IngestTasks then r.ingest else r.schedulers
  }

  // The task the campaign has registered is still running.
  predicate Busy(r: Registry, c: string) {
    c in r.ingest && r.ingest[c] < |r.tasks| && r.tasks[r.ingest[c]].phase == Running
  }

  // What an event files under a campaign: a scheduler that reports ready while its task
  // runs, a task spawned because the campaign has none running.
  function Filed(r: Registry, e: LoopEvent, table: Table, c: string): Option<nat> {
    if table == NarrativeSchedulers then
      if e.SchedulerReady? && e.task < |r.tasks| && r.tasks[e.task] == Task(c, r.tasks[e.task].cancelled, Running)
      then Some(e.task) else None
    else if (e == Spawn(c) || (e.ForeignSave? && e.campaign != c && e.other == c)) && !Busy(r, c)
    then Some(|r.tasks|) else None
  }

  // What takes both entries away: a callback of one of its tasks, or a switch away from
  // it while it is being ingested.
  predicate Dropped(r: Registry, e: LoopEvent, c: string) {
    || (e.DoneCallback? && e.task < |r.tasks| && r.tasks[e.task] == Task(c, r.tasks[e.task].cancelled, Ended))
    || (e.ForeignSave? && e.campaign == c && e.other != c && Busy(r, c))
  }

  ghost predicate Holds(r: Registry, table: Table, c: string, t: nat) {
    c in Entries(r, table) && Entries(r, table)[c] == t
  }

  lemma StepHolds(r: Registry, e: LoopEvent, table: Table, c: string, t: nat)
    requires WellFormed(r)
    ensures Holds(Step(r, e), table, c, t) <==>
      || Filed(r, e, table, c) == Some(t)
      || (Filed(r, e, table, c) == None && !Dropped(r, e, c) && Holds(r, table, c, t))
  {
  }

  // Event i filed it, and nothing has filed another or dropped it since.
  ghost predicate Latest(events: seq<LoopEvent>, table: Table, c: string, t: nat, i: int) {
    && 0 <= i < |events| && Filed(Run(events[..i]), events[i], table, c) == Some(t)
    && forall j | i < j < |events| ::
      Filed(Run(events[..j]), events[j], table, c) == None && !Dropped(Run(events[..j]), events[j], c)
  }

  lemma LatestNext(events: seq<LoopEvent>, table: Table, c: string, t: nat)
    requires events != []
    ensures var n := |events| - 1;
      var r, e := Run(events[..n]), events[n];
      (exists i :: Latest(events, table, c, t, i)) <==>
        || Filed(r, e, table, c) == Some(t)
        || (Filed(r, e, table, c) == None && !Dropped(r, e, c) && exists i :: Latest(events[..n], table, c, t, i))
  {
    hide Step, Run, Filed, Dropped;
    var n := |events| - 1;
    var earlier := events[..n];
    forall j | 0 <= j < n
      ensures earlier[..j] == events[..j] && earlier[j] == events[j]
    {
    }
    if i :| Latest(events, table, c, t, i) {
      if i < n {
        assert Latest(earlier, table, c, t, i);
        assert Filed(Run(events[..n]), events[n], table, c) == None;
      }
    }
    if Filed(Run(earlier), events[n], table, c) == None && !Dropped(Run(earlier), events[n], c) {
      if i :| Latest(earlier, table, c, t, i) {
        assert Latest(events, table, c, t, i);
      }
    }
    if Filed(Run(earlier), events[n], table, c) == Some(t) {
      assert Latest(events, table, c, t, n);
    }
  }

  // In every run a campaign has exactly the ingest task, and exactly the scheduler, that
  // was filed under it last and not dropped since.
  lemma {:induction false} RegistryHolds(events: seq<LoopEvent>, table: Table, c: string, t: nat)
    ensures WellFormed(Run(events))
    ensures Holds(Run(events), table, c, t) <==> exists i :: Latest(events, table, c, t, i)
  {
    hide Step, Filed, Dropped, Holds, Latest;
    if events == [] {
      NothingHeld(table, c, t);
    } else {
      var n := |events| - 1;
      RegistryHolds(events[..n], table, c, t);
      StepKeepsWellFormed(Run(events[..n]), events[n]);
      StepHolds(Run(events[..n]), events[n], table, c, t);
      LatestNext(events, table, c, t);
    }
  }

  lemma NothingHeld(table: Table, c: string, t: nat)
    ensures !Holds(Run([]), table, c, t) && !exists i :: Latest([], table, c, t, i)
    ensures WellFormed(Run([]))
  {
  }

  predicate Stopped(r: Registry, e: LoopEvent, t: nat)
    requires t < |r.tasks|
  {
    var task := r.tasks[t];
    && task.phase == Running && task.campaign in r.ingest && r.ingest[task.campaign] == t
    && (e == Shutdown || (e.ForeignSave? && e.campaign == task.campaign && e.other != e.campaign))
  }

  // Who is asked to stop, and by what: the registered task of a campaign, while it runs,
  // by shutdown or by a switch from its campaign to another. Tasks end and are reaped one
  // at a time and keep their campaign.
  lemma TaskAfter(r: Registry, e: LoopEvent, t: nat)
    requires WellFormed(r) && t < |r.tasks|
    ensures t < |Step(r, e).tasks|
    ensures var task, task' := r.tasks[t], Step(r, e).tasks[t];
      && task'.campaign == task.campaign
      && (task'.cancelled <==> task.cancelled || Stopped(r, e, t))
      && task'.phase == (if e == Finish(t) && task.phase == Running then Ended
                         else if e == DoneCallback(t) && task.phase == Ended then Reaped else task.phase)
  {
  }

  // The registry as the closures update it.
  class IngestRegistry {
    var tasks: seq<Task>
    var ingest: map<string, nat>
    var schedulers: map<string, nat>

    ghost function View(): Registry
      reads this
    {
      Registry(tasks, ingest, schedulers)
    }

    constructor ()
      ensures View() == EMPTY
    {
      tasks, ingest, schedulers := [], map[], map[];
    }

    predicate Done(t: nat)
      reads this
      requires t < |tasks|
    {
      tasks[t].phase != Running
    }

    method SpawnSaveIngest(campaign: string)
      requires WellFormed(View())
      modifies this
      ensures View() == SpawnFor(old(View()), campaign)
      ensures campaign in ingest && Live(View(), ingest[campaign])
      ensures WellFormed(View())
    {
      if campaign in ingest && !Done(ingest[campaign]) {
        return;
      }
      var task := |tasks|;
      tasks := tasks + [Task(campaign, false, Running)];
      ingest := ingest[campaign := task];
    }

    method OnSchedulerReady(task: nat)
      requires Live(View(), task)
      modifies this`schedulers
      ensures View() == Step(old(View()), SchedulerReady(task))
    {
      schedulers := schedulers[tasks[task].campaign := task];
    }

    method SwitchTo(campaign: string, other: string)
      requires WellFormed(View())
      modifies this
      ensures View() == DoSwitch(old(View()), campaign, other)
    {
      if other == campaign {
        return;
      }
      SpawnSaveIngest(other);
      if campaign in ingest {
        var thisTask := ingest[campaign];
        if !Done(thisTask) {
          ingest := ingest - {campaign};
          schedulers := schedulers - {campaign};
          tasks := tasks[thisTask := tasks[thisTask].(cancelled := true)];
        }
      }
    }

    method OnDoneCallback(task: nat)
      requires task < |tasks| && tasks[task].phase == Ended
      modifies this
      ensures View() == OnDone(old(View()), task)
    {
      var campaign := tasks[task].campaign;
      tasks := tasks[task := tasks[task].(phase := Reaped)];
      ingest := ingest - {campaign};
      schedulers := schedulers - {campaign};
    }

    method CancelAll()
      requires WellFormed(View())
      modifies this`tasks
      ensures View() == CancelRegistered(old(View()))
    {
      var rest := ingest.Keys;
      while rest != {}
        invariant rest <= ingest.Keys && |tasks| == |old(tasks)|
        invariant forall t | 0 <= t < |tasks| ::
          tasks[t] == Asked(old(tasks)[t], exists c :: c in ingest.Keys - rest && ingest[c] == t)
        decreases rest
      {
        var campaign :| campaign in rest;
        rest := rest - {campaign};
        var task := ingest[campaign];
        if !Done(task) {
          tasks := tasks[task := tasks[task].(cancelled := true)];
        }
      }
    }
  }
}
