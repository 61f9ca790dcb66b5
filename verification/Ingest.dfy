/** The core both ingest transports share: participants merged, the event inserted once,
    a death scheduled for a biography once. */
module Ingest {
  import opened Options

  datatype Pair = Pair(character: int, role: string)

  // What the events table is unique on.
  datatype Key = Key(kind: string, date: string, character: int, payload: string)

  datatype Row = Row(key: Key, participants: seq<Pair>)

  // One call with its transport's inputs and hooks. gateOpen is what should_schedule_death
  // would answer.
  datatype Call = Call(
    key: Key, killer: Option<int>, scope: seq<Pair>, payloadFirst: bool,
    scheduler: bool, gateOpen: bool, skipHook: bool, ingestedHook: bool)

  const DEATH := "death"

  // ---- Merging participants ----

  // Pairs in append order, later repeats dropped.
  function Deduped<T(==,!new)>(pairs: seq<T>): (r: seq<T>)
    ensures forall i, j | 0 <= i < j < |r| :: r[i] != r[j]
    ensures forall p :: p in r <==> p in pairs
  {
    if pairs == [] then []
    else
      var n := |pairs| - 1;
      var r := Deduped(pairs[..n]);
      assert pairs == pairs[..n] + [pairs[n]];
      if pairs[n] in r then r else r + [pairs[n]]
  }

  function Flat(sources: seq<seq<Pair>>): seq<Pair> {
    if sources == [] then [] else Flat(sources[..|sources| - 1]) + sources[|sources| - 1]
  }

  method MergeParticipants(sources: seq<seq<Pair>>) returns (out: seq<Pair>)
    ensures out == Deduped(Flat(sources))
  {
    out := [];
    var seen: set<Pair> := {};
    for i := 0 to |sources|
      invariant out == Deduped(Flat(sources[..i]))
      invariant forall p :: p in seen <==> p in out
    {
      assert sources[..i + 1][..i] == sources[..i];
      out, seen := AddSource(out, seen, sources[i], Flat(sources[..i]));
    }
    assert sources[..|sources|] == sources;
  }

  method AddSource(merged: seq<Pair>, seenBefore: set<Pair>, source: seq<Pair>, ghost before: seq<Pair>)
      returns (out: seq<Pair>, seen: set<Pair>)
    requires merged == Deduped(before) && forall p :: p in seenBefore <==> p in merged
    ensures out == Deduped(before + source) && forall p :: p in seen <==> p in out
  {
    hide Deduped;
    out, seen := merged, seenBefore;
    assert before + source[..0] == before;
    for j := 0 to |source|
      invariant out == Deduped(before + source[..j])
      invariant forall p :: p in seen <==> p in out
    {
      assert before + source[..j + 1] == (before + source[..j]) + [source[j]];
      DedupedAppend(before + source[..j], source[j]);
      if source[j] !in seen {
        seen := seen + {source[j]};
        out := out + [source[j]];
      }
    }
    assert source[..|source|] == source;
  }

  function FirstAt<T(==)>(s: seq<T>, t: T): (i: nat)
    requires t in s
    ensures i < |s| && s[i] == t && forall j | 0 <= j < i :: s[j] != t
  {
    if s[0] == t then 0 else 1 + FirstAt(s[1..], t)
  }

  // Kept in the order in which each first appears.
  lemma {:induction false} FirstOccurrenceOrder<T(!new)>(pairs: seq<T>, i: nat, j: nat)
    requires i < j < |Deduped(pairs)|
    ensures FirstAt(pairs, Deduped(pairs)[i]) < FirstAt(pairs, Deduped(pairs)[j])
  {
    var n := |pairs| - 1;
    var r, before := Deduped(pairs), Deduped(pairs[..n]);
    assert pairs == pairs[..n] + [pairs[n]];
    FirstAtPrefix(pairs, n, r[i]);
    if j < |before| {
      FirstOccurrenceOrder(pairs[..n], i, j);
      FirstAtPrefix(pairs, n, r[j]);
    }
  }

  lemma FirstAtPrefix<T>(s: seq<T>, n: nat, t: T)
    requires n <= |s| && t in s[..n]
    ensures t in s && FirstAt(s, t) == FirstAt(s[..n], t)
  {
    var i := FirstAt(s[..n], t);
    assert s[i] == t;
    assert forall j | 0 <= j < i :: s[j] == s[..n][j];
  }

  lemma DedupedAppend<T(!new)>(s: seq<T>, t: T)
    ensures Deduped(s + [t]) == if t in s then Deduped(s) else Deduped(s) + [t]
  {
    assert (s + [t])[..|s|] == s;
  }

  // Merging is associative: grouping the sources differently changes nothing.
  lemma MergeAssociative<T(!new)>(a: seq<T>, b: seq<T>, c: seq<T>)
    ensures Deduped(Deduped(a + b) + c) == Deduped(a + Deduped(b + c)) == Deduped(a + b + c)
  {
    hide Deduped;
    DedupedFirst(a + b, c);
    DedupedLast(a, b + c);
    assert a + (b + c) == a + b + c;
  }

  lemma {:induction false} DedupedFirst<T(!new)>(a: seq<T>, b: seq<T>)
    ensures Deduped(Deduped(a) + b) == Deduped(a + b)
  {
    hide Deduped;
    if b == [] {
      assert Deduped(a) + b == Deduped(a) && a + b == a;
      DedupedTwice(a);
    } else {
      var n := |b| - 1;
      DedupedFirst(a, b[..n]);
      assert Deduped(a) + b == (Deduped(a) + b[..n]) + [b[n]];
      assert a + b == (a + b[..n]) + [b[n]];
      DedupedAppend(Deduped(a) + b[..n], b[n]);
      DedupedAppend(a + b[..n], b[n]);
    }
  }

  lemma {:induction false} DedupedTwice<T(!new)>(a: seq<T>)
    ensures Deduped(Deduped(a)) == Deduped(a)
  {
    if a != [] {
      var n := |a| - 1;
      DedupedTwice(a[..n]);
      DedupedAppend(Deduped(a[..n]), a[n]);
    }
  }

  lemma {:induction false} DedupedLast<T(!new)>(a: seq<T>, b: seq<T>)
    ensures Deduped(a + Deduped(b)) == Deduped(a + b)
  {
    hide Deduped;
    if b == [] {
      assert Deduped(b) == [] by { DedupedOfNone<T>(); }
      assert a + Deduped(b) == a + b;
    } else {
      var n := |b| - 1;
      var r := Deduped(b[..n]);
      DedupedLast(a, b[..n]);
      assert b == b[..n] + [b[n]];
      assert a + b == (a + b[..n]) + [b[n]];
      assert a + (r + [b[n]]) == (a + r) + [b[n]];
      DedupedAppend(b[..n], b[n]);
      DedupedAppend(a + b[..n], b[n]);
      DedupedAppend(a + r, b[n]);
      if b[n] in b[..n] {
        assert b[n] in a + b[..n];
      }
    }
  }

  lemma DedupedOfNone<T(!new)>()
    ensures Deduped<T>([]) == []
  {
  }

  // ---- One call ----

  function PayloadParticipants(call: Call): seq<Pair> {
    if call.key.kind == DEATH && call.killer.Some? then [Pair(call.killer.value, "killer")] else []
  }

  function Participants(call: Call): seq<Pair> {
    Deduped(if call.payloadFirst then PayloadParticipants(call) + call.scope
            else call.scope + PayloadParticipants(call))
  }

  function Named(call: Call): set<int> {
    {call.key.character} + set i | 0 <= i < |Participants(call)| :: Participants(call)[i].character
  }

  // What the database holds, and what the hooks were told. An event's id is its place in
  // the table, from 1.
  datatype World = World(
    characters: set<int>, lastSeen: map<int, nat>, events: seq<Row>,
    scheduled: seq<int>, skipped: seq<int>, announced: seq<nat>)

  const EMPTY := World({}, map[], [], [], [], [])

  function Keys(rows: seq<Row>): (r: seq<Key>)
    ensures |r| == |rows| && forall i | 0 <= i < |r| :: r[i] == rows[i].key
  {
    if rows == [] then [] else Keys(rows[..|rows| - 1]) + [rows[|rows| - 1].key]
  }

  predicate Schedules(call: Call) {
    call.key.kind == DEATH && call.scheduler && call.gateOpen
  }

  predicate Skips(call: Call) {
    call.key.kind == DEATH && call.scheduler && !call.gateOpen && call.skipHook
  }

  function Step(w: World, call: Call): World {
    var characters := w.characters + Named(call);
    if call.key in Keys(w.events) then w.(characters := characters)
    else
      var id := |w.events| + 1;
      World(characters, w.lastSeen[call.key.character := id],
            w.events + [Row(call.key, Participants(call))],
            w.scheduled + (if Schedules(call) then [call.key.character] else []),
            w.skipped + (if Skips(call) then [call.key.character] else []),
            w.announced + (if call.ingestedHook then [id] else []))
  }

  function Run(calls: seq<Call>): World {
    if calls == [] then EMPTY else Step(Run(calls[..|calls| - 1]), calls[|calls| - 1])
  }

  class EventStore {
    var characters: set<int>
    var lastSeen: map<int, nat>
    var events: seq<Row>
    var scheduled: seq<int>
    var skipped: seq<int>
    var announced: seq<nat>

    ghost function Now(): World
      reads this
    {
      World(characters, lastSeen, events, scheduled, skipped, announced)
    }

    constructor ()
      ensures Now() == EMPTY
    {
      characters, lastSeen, events, scheduled, skipped, announced := {}, map[], [], [], [], [];
    }

    // None when another row has the key already.
    method InsertEventIdempotent(key: Key, participants: seq<Pair>) returns (id: Option<nat>)
      modifies this`events
      ensures key in Keys(old(events)) ==> id == None && events == old(events)
      ensures key !in Keys(old(events)) ==>
        id == Some(|old(events)| + 1) && events == old(events) + [Row(key, participants)]
    {
      if key in Keys(events) {
        return None;
      }
      events := events + [Row(key, participants)];
      return Some(|events|);
    }

    method UpsertAll(participants: seq<Pair>)
      modifies this`characters
      ensures characters == old(characters) + set j | 0 <= j < |participants| :: participants[j].character
    {
      for i := 0 to |participants|
        invariant characters == old(characters) + set j | 0 <= j < i :: participants[j].character
      {
        characters := characters + {participants[i].character};
      }
    }

    method IngestEvent(call: Call) returns (id: Option<nat>)
      modifies this
      ensures Now() == Step(old(Now()), call)
      ensures id == if call.key in Keys(old(events)) then None else Some(|old(events)| + 1)
    {
      hide Deduped, Flat, PayloadParticipants, Keys;
      characters := characters + {call.key.character};
      var payload := PayloadParticipants(call);
      var participants: seq<Pair>;
      if call.payloadFirst {
        participants := MergeParticipants([payload, call.scope]);
      } else {
        participants := MergeParticipants([call.scope, payload]);
      }
      FlatOfTwo(payload, call.scope);
      FlatOfTwo(call.scope, payload);
      assert participants == Participants(call);
      UpsertAll(participants);
      assert characters == old(characters) + Named(call);
      id := InsertEventIdempotent(call.key, participants);
      if id.None? {
        return;
      }
      lastSeen := lastSeen[call.key.character := id.value];
      if call.scheduler && call.key.kind == DEATH {
        if call.gateOpen {
          scheduled := scheduled + [call.key.character];
        } else if call.skipHook {
          skipped := skipped + [call.key.character];
        }
      }
      if call.ingestedHook {
        announced := announced + [id.value];
      }
    }
  }

  lemma FlatOfTwo(a: seq<Pair>, b: seq<Pair>)
    ensures Flat([a, b]) == a + b
  {
    assert [a, b][..1] == [a] && [a][..0] == [];
    assert Flat([a]) == Flat([]) + a;
  }

  // ---- Any run, with replays in any order ----

  function CallKeys(calls: seq<Call>): (r: seq<Key>)
    ensures |r| == |calls| && forall i | 0 <= i < |r| :: r[i] == calls[i].key
  {
    if calls == [] then [] else CallKeys(calls[..|calls| - 1]) + [calls[|calls| - 1].key]
  }

  // The calls that were the first with their key.
  function Firsts(calls: seq<Call>): seq<Call> {
    if calls == [] then []
    else
      var n := |calls| - 1;
      Firsts(calls[..n]) + (if calls[n].key in CallKeys(calls[..n]) then [] else [calls[n]])
  }

  function Rows(calls: seq<Call>): seq<Row> {
    if calls == [] then []
    else
      var c := calls[|calls| - 1];
      Rows(calls[..|calls| - 1]) + [Row(c.key, Participants(c))]
  }

  function Biographies(calls: seq<Call>): seq<int> {
    if calls == [] then []
    else
      var c := calls[|calls| - 1];
      var dies := c.key.kind == "death" && c.scheduler;
      Biographies(calls[..|calls| - 1]) + (if dies && c.gateOpen then [c.key.character] else [])
  }

  function Skipped(calls: seq<Call>): seq<int> {
    if calls == [] then []
    else
      var c := calls[|calls| - 1];
      var dies := c.key.kind == "death" && c.scheduler;
      Skipped(calls[..|calls| - 1]) + (if dies && !c.gateOpen && c.skipHook then [c.key.character] else [])
  }

  // The ids of the rows whose call has the hook; the n-th row's id is n.
  function Announced(calls: seq<Call>): seq<nat> {
    if calls == [] then []
    else Announced(calls[..|calls| - 1]) + (if calls[|calls| - 1].ingestedHook then [|calls|] else [])
  }

  // A row, a biography, a skip or an announcement comes from the first call with its key
  // and from no other: the table and the hooks see each key once, whatever was replayed.
  lemma {:induction false} OnlyFirstCallsCount(calls: seq<Call>)
    ensures var w := Run(calls);
      && w.events == Rows(Firsts(calls))
      && w.scheduled == Biographies(Firsts(calls))
      && w.skipped == Skipped(Firsts(calls))
      && w.announced == Announced(Firsts(calls))
      && (forall k :: k in Keys(w.events) <==> k in CallKeys(calls))
      && (forall i, j | 0 <= i < j < |w.events| :: w.events[i].key != w.events[j].key)
  {
    hide Participants, Named, Schedules, Skips, Keys, CallKeys, Rows, Biographies, Skipped, Announced;
    if calls == [] {
      NothingStored();
    } else {
      var n := |calls| - 1;
      var c := calls[n];
      OnlyFirstCallsCount(calls[..n]);
      KeysAppend(calls[..n], c, Run(calls[..n]).events, Row(c.key, Participants(c)));
      assert calls == calls[..n] + [c];
      if c.key in CallKeys(calls[..n]) {
        assert Firsts(calls) == Firsts(calls[..n]);
      } else {
        assert Firsts(calls) == Firsts(calls[..n]) + [c];
        OneMoreFirst(Firsts(calls[..n]), c);
        RowsCount(Firsts(calls[..n]));
        var rows := Run(calls[..n]).events;
        forall i | 0 <= i < |rows|
          ensures rows[i].key != c.key
        {
          assert Keys(rows)[i] == rows[i].key;
        }
      }
    }
  }

  lemma {:induction false} RowsCount(calls: seq<Call>)
    ensures |Rows(calls)| == |calls|
  {
    if calls != [] {
      RowsCount(calls[..|calls| - 1]);
    }
  }

  // A row's participants: the scope's pairs and, for a death, the killer, each once.
  lemma WhoTakesPart(call: Call, p: Pair)
    ensures p in Participants(call) <==>
      p in call.scope || (call.key.kind == "death" && call.killer == Some(p.character) && p.role == "killer")
  {
    hide Deduped;
    var payload := PayloadParticipants(call);
    assert p in payload + call.scope <==> p in payload || p in call.scope;
    assert p in call.scope + payload <==> p in payload || p in call.scope;
  }

  // The killer comes first or last as the transport asks, unless the scope has the pair.
  lemma KillerFirstOrLast(call: Call)
    requires call.key.kind == "death" && call.killer.Some? && Pair(call.killer.value, "killer") !in call.scope
    ensures var killer := Pair(call.killer.value, "killer");
      Participants(call) == if call.payloadFirst then [killer] + Deduped(call.scope) else Deduped(call.scope) + [killer]
  {
    hide Deduped;
    var killer := Pair(call.killer.value, "killer");
    if call.payloadFirst {
      DedupedAfter(killer, call.scope);
    } else {
      DedupedAppend(call.scope, killer);
    }
  }

  lemma {:induction false} DedupedAfter<T(!new)>(t: T, s: seq<T>)
    requires t !in s
    ensures Deduped([t] + s) == [t] + Deduped(s)
  {
    hide Deduped;
    if s == [] {
      assert [t] + s == [] + [t];
      DedupedAppend<T>([], t);
      DedupedOfNone<T>();
    } else {
      var n := |s| - 1;
      DedupedAfter(t, s[..n]);
      assert s == s[..n] + [s[n]] && [t] + s == ([t] + s[..n]) + [s[n]];
      DedupedAppend(s[..n], s[n]);
      DedupedAppend([t] + s[..n], s[n]);
    }
  }

  // Everybody named by any call, replays included, has a character row, and nobody else.
  lemma {:induction false} CharactersAreNamed(calls: seq<Call>, c: int)
    ensures c in Run(calls).characters <==> exists i :: 0 <= i < |calls| && NamedBy(calls[i], c)
  {
    hide Participants, Schedules, Skips, Keys;
    if calls != [] {
      var n := |calls| - 1;
      CharactersAreNamed(calls[..n], c);
      NamedAre(calls[n], c);
      assert calls == calls[..n] + [calls[n]];
    }
  }

  predicate NamedBy(call: Call, c: int) {
    || c == call.key.character || (exists p | p in call.scope :: p.character == c)
    || (call.key.kind == "death" && call.killer == Some(c))
  }

  lemma NamedAre(call: Call, c: int)
    ensures c in Named(call) <==> NamedBy(call, c)
  {
    hide Participants;
    var ps := Participants(call);
    if i :| 0 <= i < |ps| && ps[i].character == c {
      WhoTakesPart(call, ps[i]);
    }
    if p :| p in call.scope && p.character == c {
      WhoTakesPart(call, p);
      var i :| 0 <= i < |ps| && ps[i] == p;
    }
    if call.key.kind == "death" && call.killer == Some(c) {
      WhoTakesPart(call, Pair(c, "killer"));
      var i :| 0 <= i < |ps| && ps[i] == Pair(c, "killer");
    }
  }

  lemma NothingStored()
    ensures Rows([]) == [] && Biographies([]) == [] && Skipped([]) == [] && Announced([]) == []
    ensures Keys([]) == [] && CallKeys([]) == []
  {
  }

  lemma KeysAppend(calls: seq<Call>, c: Call, rows: seq<Row>, row: Row)
    ensures CallKeys(calls + [c]) == CallKeys(calls) + [c.key] && Keys(rows + [row]) == Keys(rows) + [row.key]
  {
  }

  lemma OneMoreFirst(firsts: seq<Call>, c: Call)
    ensures Rows(firsts + [c]) == Rows(firsts) + [Row(c.key, Participants(c))]
    ensures Biographies(firsts + [c]) == Biographies(firsts) + (if Schedules(c) then [c.key.character] else [])
    ensures Skipped(firsts + [c]) == Skipped(firsts) + (if Skips(c) then [c.key.character] else [])
    ensures Announced(firsts + [c]) == Announced(firsts) + (if c.ingestedHook then [|firsts| + 1] else [])
  {
    hide Participants;
    assert (firsts + [c])[..|firsts|] == firsts;
  }

  // Replaying known keys, in any order and from either transport, stores, schedules and
  // announces nothing.
  lemma {:induction false} ReplayIsHarmless(calls: seq<Call>, replay: seq<Call>)
    requires forall i | 0 <= i < |replay| :: replay[i].key in CallKeys(calls)
    ensures var w, v := Run(calls), Run(calls + replay);
      && v.events == w.events && v.scheduled == w.scheduled && v.skipped == w.skipped
      && v.announced == w.announced && v.lastSeen == w.lastSeen
  {
    hide Named, Schedules, Skips, Participants, Keys, CallKeys, Rows, Biographies, Skipped, Firsts;
    if replay == [] {
      assert calls + replay == calls;
    } else {
      var n := |replay| - 1;
      ReplayIsHarmless(calls, replay[..n]);
      OnlyFirstCallsCount(calls);
      assert (calls + replay)[..|calls| + n] == calls + replay[..n];
    }
  }

  // The other half of last_seen_event_id: it names the newest row of that character.
  lemma {:induction false} LastSeenIsNewest(calls: seq<Call>, c: int)
    ensures var w := Run(calls);
      && (c in w.lastSeen <==> exists i :: 0 <= i < |w.events| && w.events[i].key.character == c)
      && (c in w.lastSeen ==>
            && 1 <= w.lastSeen[c] <= |w.events| && w.events[w.lastSeen[c] - 1].key.character == c
            && forall i | w.lastSeen[c] <= i < |w.events| :: w.events[i].key.character != c)
  {
    hide Named, Schedules, Skips, Participants, Keys;
    if calls != [] {
      var n := |calls| - 1;
      LastSeenIsNewest(calls[..n], c);
      var before, w := Run(calls[..n]), Run(calls);
      if calls[n].key in Keys(before.events) {
        assert w.events == before.events && w.lastSeen == before.lastSeen;
      } else {
        var id := |before.events|;
        assert w.events[id].key == calls[n].key;
        assert forall i | 0 <= i < id :: w.events[i] == before.events[i];
      }
    }
  }
}
