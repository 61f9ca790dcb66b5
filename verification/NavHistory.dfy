/** The bounded, squashing navigation history of the app store, against the history
    it would keep without a bound. */
module NavHistory {
  import opened Options
  import opened Sequences

  datatype ViewId =
    | Library | CampaignOverview | Codex | Chronicle | Tree | Tracked | Ingest | Search | Closing
    | Biographies | SettingsView | Queue | Dynasty | Hall | Logs

  datatype Theme = Light | Dark

  datatype Snap = Snap(view: ViewId, character: Option<int>)

  const MAX_NAV_HISTORY: nat := 20

  // Where the user is and the way back. No cap stands for unbounded history.
  datatype Nav = Nav(view: ViewId, character: Option<int>, history: seq<Snap>)

  datatype Op =
    | SetView(view: ViewId)
    | Select(character: Option<int>)
    | GoBack
    | SetCampaign(name: Option<string>, landing: Option<ViewId>)

  const START := Nav(Library, None, [])

  function Here(n: Nav): Snap {
    Snap(n.view, n.character)
  }

  // Push, merging with the top entry when that is of the same view.
  function PushSnap(cap: Option<nat>, history: seq<Snap>, snap: Snap): seq<Snap>
    requires cap.Some? ==> cap.value > 1
  {
    if history != [] && history[|history| - 1].view == snap.view then history[..|history| - 1] + [snap]
    else (if cap.Some? then Suffix(history, cap.value - 1) else history) + [snap]
  }

  function LandingView(name: Option<string>, view: Option<ViewId>): ViewId {
    if view.Some? then view.value else if name.Some? && name.value != "" then Codex else Library
  }

  function Step(cap: Option<nat>, n: Nav, op: Op): Nav
    requires cap.Some? ==> cap.value > 1
  {
    match op
    case SetView(view) => if n.view == view then n else Nav(view, n.character, PushSnap(cap, n.history, Here(n)))
    case Select(character) =>
      if n.character == character then n else Nav(n.view, character, PushSnap(cap, n.history, Here(n)))
    case GoBack =>
      if n.history == [] then n
      else
        var top := n.history[|n.history| - 1];
        Nav(top.view, top.character, n.history[..|n.history| - 1])
    case SetCampaign(name, view) => Nav(LandingView(name, view), None, [])
  }

  function Run(cap: Option<nat>, ops: seq<Op>): Nav
    requires cap.Some? ==> cap.value > 1
  {
    if ops == [] then START else Step(cap, Run(cap, ops[..|ops| - 1]), ops[|ops| - 1])
  }

  // No two neighbours of one view, and the top entry is never where the user already is.
  ghost predicate Tidy(n: Nav) {
    && (forall i | 0 <= i < |n.history| - 1 :: n.history[i].view != n.history[i + 1].view)
    && (n.history != [] ==> n.history[|n.history| - 1] != Here(n))
  }

  lemma StepKeepsTidy(cap: Option<nat>, n: Nav, op: Op)
    requires (cap.Some? ==> cap.value > 1) && Tidy(n)
    ensures Tidy(Step(cap, n, op))
    ensures cap.Some? && |n.history| <= cap.value ==> |Step(cap, n, op).history| <= cap.value
  {
    hide PushSnap;
    if op.SetView? || op.Select? {
      PushKeepsTidy(cap, n.history, Here(n));
    }
  }

  lemma PushKeepsTidy(cap: Option<nat>, history: seq<Snap>, snap: Snap)
    requires cap.Some? ==> cap.value > 1
    requires forall i | 0 <= i < |history| - 1 :: history[i].view != history[i + 1].view
    ensures var pushed := PushSnap(cap, history, snap);
      && pushed != [] && pushed[|pushed| - 1] == snap
      && (forall i | 0 <= i < |pushed| - 1 :: pushed[i].view != pushed[i + 1].view)
      && (cap.Some? && |history| <= cap.value ==> |pushed| <= cap.value)
  {
    hide Suffix;
    if history != [] && history[|history| - 1].view == snap.view {
      SpacedSnoc(history[..|history| - 1], snap);
    } else {
      var kept := if cap.Some? then Suffix(history, cap.value - 1) else history;
      forall i | 0 <= i < |kept| - 1
        ensures kept[i].view != kept[i + 1].view
      {
        assert history[|history| - |kept| + i].view != history[|history| - |kept| + i + 1].view;
      }
      SpacedSnoc(kept, snap);
    }
  }

  lemma SpacedSnoc(history: seq<Snap>, snap: Snap)
    requires forall i | 0 <= i < |history| - 1 :: history[i].view != history[i + 1].view
    requires history != [] ==> history[|history| - 1].view != snap.view
    ensures forall i | 0 <= i < |history + [snap]| - 1 :: (history + [snap])[i].view != (history + [snap])[i + 1].view
  {
  }

  lemma {:induction false} HistoryIsTidy(cap: Option<nat>, ops: seq<Op>)
    requires cap.Some? ==> cap.value > 1
    ensures Tidy(Run(cap, ops))
    ensures cap.Some? ==> |Run(cap, ops).history| <= cap.value
  {
    hide Step, Tidy;
    if ops == [] {
      StartIsTidy();
    } else {
      HistoryIsTidy(cap, ops[..|ops| - 1]);
      StepKeepsTidy(cap, Run(cap, ops[..|ops| - 1]), ops[|ops| - 1]);
    }
  }

  lemma StartIsTidy()
    ensures Tidy(START)
  {
  }

  // So a press of back with any history at all goes somewhere else.
  lemma BackMoves(cap: Option<nat>, ops: seq<Op>)
    requires (cap.Some? ==> cap.value > 1) && Run(cap, ops).history != []
    ensures Here(Step(cap, Run(cap, ops), GoBack)) != Here(Run(cap, ops))
  {
    HistoryIsTidy(cap, ops);
  }

  // A selection's push stands alone, with what was on top still beneath it, exactly when
  // there was nothing on top or an entry of another page; otherwise it replaces the top.
  lemma SelectStandsAlone(cap: Option<nat>, n: Nav, character: Option<int>)
    requires (cap.Some? ==> cap.value > 1) && Tidy(n) && n.character != character
    ensures var h, h' := n.history, Step(cap, n, Select(character)).history;
      && h' != [] && h'[|h'| - 1] == Here(n)
      && (h == [] || (|h'| >= 2 && h'[|h'| - 2] == h[|h| - 1]) <==> h == [] || h[|h| - 1].view != n.view)
      && (cap.None? || |h| < cap.value ==> (|h'| == |h| + 1 <==> h == [] || h[|h| - 1].view != n.view))
  {
    hide PushSnap;
    PushOutcome(cap, n.history, Here(n));
    if |n.history| >= 2 {
      TopDiffers(n);
    }
  }

  lemma PushOutcome(cap: Option<nat>, h: seq<Snap>, snap: Snap)
    requires cap.Some? ==> cap.value > 1
    ensures var h' := PushSnap(cap, h, snap);
      && h' != [] && h'[|h'| - 1] == snap
      && (h == [] ==> |h'| == 1)
      && (h != [] && h[|h| - 1].view == snap.view ==>
            |h'| == |h| && (|h| >= 2 ==> h'[|h'| - 2] == h[|h| - 2]))
      && (h != [] && h[|h| - 1].view != snap.view ==>
            |h'| >= 2 && h'[|h'| - 2] == h[|h| - 1] && (cap.None? || |h| < cap.value ==> |h'| == |h| + 1))
  {
  }

  lemma TopDiffers(n: Nav)
    requires Tidy(n) && |n.history| >= 2
    ensures n.history[|n.history| - 2] != n.history[|n.history| - 1]
  {
    assert n.history[|n.history| - 2].view != n.history[|n.history| - 2 + 1].view;
  }

  // So of several selections in a row on one page only the last is remembered: two leave
  // exactly what the second alone would have left, and no back can tell them apart.
  lemma TwoSelectsForgetTheFirst(cap: Option<nat>, n: Nav, first: Option<int>, second: Option<int>)
    requires (cap.Some? ==> cap.value > 1) && n.character != first
    ensures Step(cap, Step(cap, n, Select(first)), Select(second))
      == if second == first then Step(cap, n, Select(first))
         else Step(cap, Nav(n.view, first, n.history), Select(second))
  {
    hide Suffix;
  }

  // From a cold load: back after two selections reaches the first of them, and never the
  // page without a selection.
  lemma FirstSelectionIsLost()
    ensures var cap := Some(MAX_NAV_HISTORY);
      var n := Run(cap, [Select(Some(1)), Select(Some(2))]);
      && n.history == [Snap(Library, Some(1))]
      && Here(Step(cap, n, GoBack)) == Snap(Library, Some(1))
      && Step(cap, Step(cap, n, GoBack), GoBack) == Step(cap, n, GoBack)
  {
    var ops := [Select(Some(1)), Select(Some(2))];
    assert ops[..1] == [Select(Some(1))] && ops[..1][..0] == [];
    assert Run(Some(MAX_NAV_HISTORY), ops[..1]) == Nav(Library, Some(1), [Snap(Library, None)]);
  }

  // Two backs in a row land on different pages.
  lemma BackTwiceChangesPage(cap: Option<nat>, ops: seq<Op>)
    requires (cap.Some? ==> cap.value > 1) && |Run(cap, ops).history| >= 2
    ensures var once := Step(cap, Run(cap, ops), GoBack); Step(cap, once, GoBack).view != once.view
  {
    HistoryIsTidy(cap, ops);
    var h := Run(cap, ops).history;
    assert h[|h| - 2].view != h[|h| - 2 + 1].view;
  }

  // Back right after a change of view or character restores both.
  lemma BackUndoes(cap: Option<nat>, n: Nav, op: Op)
    requires cap.Some? ==> cap.value > 1
    requires (op.SetView? && op.view != n.view) || (op.Select? && op.character != n.character)
    ensures Here(Step(cap, Step(cap, n, op), GoBack)) == Here(n)
  {
  }

  // ---- The cap only forgets the oldest ----

  ghost predicate IsSuffix<T>(s: seq<T>, t: seq<T>) {
    |s| <= |t| && forall i | 0 <= i < |s| :: s[i] == t[|t| - |s| + i]
  }

  // The capped store c shows what the unbounded store u shows and remembers the end
  // of what u remembers.
  ghost predicate Tracks(c: Nav, u: Nav) {
    Here(c) == Here(u) && IsSuffix(c.history, u.history)
  }

  // Back pressed where the capped store has forgotten what the unbounded one has not.
  predicate Forgotten(c: Nav, u: Nav, op: Op) {
    op.GoBack? && c.history == [] && u.history != []
  }

  lemma PushTracks(cap: nat, c: seq<Snap>, u: seq<Snap>, snap: Snap)
    requires cap > 1 && IsSuffix(c, u)
    ensures IsSuffix(PushSnap(Some(cap), c, snap), PushSnap(None, u, snap))
  {
    hide Suffix;
    var c', u' := PushSnap(Some(cap), c, snap), PushSnap(None, u, snap);
    if c != [] {
      assert c[|c| - 1] == u[|u| - 1];
    }
    forall i | 0 <= i < |c'|
      ensures c'[i] == u'[|u'| - |c'| + i]
    {
      if i < |c'| - 1 {
        assert u'[|u'| - |c'| + i] == u[|u'| - |c'| + i];
      }
    }
  }

  lemma PopTracks(c: seq<Snap>, u: seq<Snap>)
    requires c != [] && IsSuffix(c, u)
    ensures c[|c| - 1] == u[|u| - 1] && IsSuffix(c[..|c| - 1], u[..|u| - 1])
  {
    assert c[|c| - 1] == u[|u| - |c| + (|c| - 1)];
  }

  lemma StepTracks(cap: nat, c: Nav, u: Nav, op: Op)
    requires cap > 1 && Tracks(c, u) && Tidy(u)
    ensures Tracks(Step(Some(cap), c, op), Step(None, u, op)) <==> !Forgotten(c, u, op)
  {
    hide PushSnap, IsSuffix;
    match op
    case SetView(_) => PushTracks(cap, c.history, u.history, Here(c));
    case Select(_) => PushTracks(cap, c.history, u.history, Here(c));
    case SetCampaign(_, _) => EmptyIsSuffix([]);
    case GoBack =>
      if c.history != [] {
        assert u.history != [] by { SuffixIsShorter(c.history, u.history); }
        PopTracks(c.history, u.history);
      } else if u.history != [] {
        EmptyIsSuffix(u.history[..|u.history| - 1]);
      }
  }

  lemma EmptyIsSuffix(u: seq<Snap>)
    ensures IsSuffix([], u)
  {
  }

  lemma SuffixIsShorter(c: seq<Snap>, u: seq<Snap>)
    requires IsSuffix(c, u)
    ensures |c| <= |u|
  {
  }

  // A session stays in step with unbounded history exactly as long as nobody presses
  // back on an empty capped stack that an unbounded one would still have entries in:
  // every earlier back lands where unbounded history would.
  lemma {:induction false} TracksUntilForgotten(ops: seq<Op>)
    requires forall i | 0 <= i < |ops| ::
      !Forgotten(Run(Some(MAX_NAV_HISTORY), ops[..i]), Run(None, ops[..i]), ops[i])
    ensures Tracks(Run(Some(MAX_NAV_HISTORY), ops), Run(None, ops))
  {
    hide Step, Tracks, Tidy;
    if ops == [] {
      StartTracks();
    } else {
      var earlier := ops[..|ops| - 1];
      forall i | 0 <= i < |earlier|
        ensures !Forgotten(Run(Some(MAX_NAV_HISTORY), earlier[..i]), Run(None, earlier[..i]), earlier[i])
      {
        assert earlier[..i] == ops[..i];
      }
      TracksUntilForgotten(earlier);
      HistoryIsTidy(None, earlier);
      StepTracks(MAX_NAV_HISTORY, Run(Some(MAX_NAV_HISTORY), earlier), Run(None, earlier), ops[|ops| - 1]);
    }
  }

  lemma StartTracks()
    ensures Tracks(START, START)
  {
  }

  // ---- The store itself ----

  datatype Persisted = Persisted(theme: Theme, activeCampaign: Option<string>)

  class AppStore {
    var view: ViewId
    var theme: Theme
    var activeCampaign: Option<string>
    var selectedCharacterId: Option<int>
    var navHistory: seq<Snap>
    var storage: Option<Persisted>   // localStorage, when it accepts the write

    ghost function Now(): Nav
      reads this
    {
      Nav(view, selectedCharacterId, navHistory)
    }

    // A cold load always lands on Library, whatever was persisted.
    constructor (persisted: Option<Persisted>)
      ensures Now() == START && storage == persisted
      ensures theme == (if persisted.Some? then persisted.value.theme else Dark)
      ensures activeCampaign == (if persisted.Some? then persisted.value.activeCampaign else None)
    {
      view, selectedCharacterId, navHistory, storage := Library, None, [], persisted;
      theme := if persisted.Some? then persisted.value.theme else Dark;
      activeCampaign := if persisted.Some? then persisted.value.activeCampaign else None;
    }

    method SetViewTo(target: ViewId)
      modifies this`view, this`navHistory
      ensures Now() == Step(Some(MAX_NAV_HISTORY), old(Now()), SetView(target))
    {
      if view == target {
        return;
      }
      navHistory := PushSnap(Some(MAX_NAV_HISTORY), navHistory, Snap(view, selectedCharacterId));
      view := target;
    }

    method SetSelectedCharacterId(id: Option<int>)
      modifies this`selectedCharacterId, this`navHistory
      ensures Now() == Step(Some(MAX_NAV_HISTORY), old(Now()), Select(id))
    {
      if selectedCharacterId == id {
        return;
      }
      navHistory := PushSnap(Some(MAX_NAV_HISTORY), navHistory, Snap(view, selectedCharacterId));
      selectedCharacterId := id;
    }

    method Back()
      modifies this`view, this`selectedCharacterId, this`navHistory
      ensures Now() == Step(Some(MAX_NAV_HISTORY), old(Now()), GoBack)
    {
      if navHistory == [] {
        return;
      }
      var next := navHistory[|navHistory| - 1];
      view, selectedCharacterId := next.view, next.character;
      navHistory := navHistory[..|navHistory| - 1];
    }

    method SetActiveCampaign(name: Option<string>, target: Option<ViewId>, stored: bool)
      modifies this`activeCampaign, this`selectedCharacterId, this`view, this`navHistory, this`storage
      ensures Now() == Step(Some(MAX_NAV_HISTORY), old(Now()), SetCampaign(name, target))
      ensures activeCampaign == name && selectedCharacterId == None && navHistory == []
      ensures target.Some? ==> view == target.value
      ensures target.None? ==> view == if name == None || name == Some("") then Library else Codex
      ensures storage == if stored then Some(Persisted(theme, name)) else old(storage)
    {
      activeCampaign, selectedCharacterId, view, navHistory := name, None, LandingView(name, target), [];
      Persist(stored);
    }

    method SetTheme(target: Theme, stored: bool)
      modifies this`theme, this`storage
      ensures theme == target
      ensures storage == if stored then Some(Persisted(target, activeCampaign)) else old(storage)
    {
      theme := target;
      Persist(stored);
    }

    // Writing may fail; then nothing changes and nobody is told.
    method Persist(stored: bool)
      modifies this`storage
      ensures storage == if stored then Some(Persisted(theme, activeCampaign)) else old(storage)
    {
      if stored {
        storage := Some(Persisted(theme, activeCampaign));
      }
    }
  }
}
