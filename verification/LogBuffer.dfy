/** The in-process log ring and the cursor poller that streams it. */
module LogBuffer {
  import opened Options
  import opened Sequences

  const MAX_BUFFERED_LINES: nat := 2_000
  const LEVEL_NAMES := ["DEBUG", "INFO", "WARNING", "ERROR", "CRITICAL"]

  datatype Envelope = Envelope(seqNo: nat, ts: string, level: string, logger: string, message: string)

  // A log record as emit sees it; None when formatting it raises.
  type Record = Option<Envelope>

  datatype Failure = UnknownLevel(name: string)

  function LevelIndex(name: string, from: nat): (i: nat)
    requires from <= |LEVEL_NAMES|
    ensures from <= i <= |LEVEL_NAMES|
    ensures i < |LEVEL_NAMES| ==> LEVEL_NAMES[i] == name
    ensures forall j | from <= j < i :: LEVEL_NAMES[j] != name
    decreases |LEVEL_NAMES| - from
  {
    if from == |LEVEL_NAMES| || LEVEL_NAMES[from] == name then from else LevelIndex(name, from + 1)
  }

  predicate Known(name: string) {
    LevelIndex(name, 0) < |LEVEL_NAMES|
  }

  predicate AtLeast(e: Envelope, level: string) {
    LevelIndex(e.level, 0) >= LevelIndex(level, 0)
  }

  // The envelopes at or above a level, in order.
  function Loud(s: seq<Envelope>, level: string): seq<Envelope> {
    if s == [] then []
    else Loud(s[..|s| - 1], level) + if AtLeast(s[|s| - 1], level) then [s[|s| - 1]] else []
  }

  function Newer(s: seq<Envelope>, cursor: int): seq<Envelope> {
    if s == [] then []
    else Newer(s[..|s| - 1], cursor) + if s[|s| - 1].seqNo > cursor then [s[|s| - 1]] else []
  }

  // `all` lists every record ever emitted: its k-th carries sequence number k.
  ghost predicate Numbered(all: seq<Envelope>) {
    forall i | 0 <= i < |all| :: all[i].seqNo == i + 1
  }

  lemma {:induction false} NewerKeepsAll(s: seq<Envelope>, cursor: int)
    requires forall i | 0 <= i < |s| :: s[i].seqNo > cursor
    ensures Newer(s, cursor) == s
  {
    if s != [] {
      NewerKeepsAll(s[..|s| - 1], cursor);
    }
  }

  lemma {:induction false} NewerDropsFront(s: seq<Envelope>, k: nat, cursor: int)
    requires k <= |s| && forall i | 0 <= i < k :: s[i].seqNo <= cursor
    ensures Newer(s, cursor) == Newer(s[k..], cursor)
  {
    if k == |s| {
      if s != [] {
        NewerDropsFront(s[..k - 1], k - 1, cursor);
        assert s[..k - 1][k - 1..] == [] && s[k..] == [];
      }
    } else {
      NewerDropsFront(s[..|s| - 1], k, cursor);
      assert s[k..][..|s| - k - 1] == s[..|s| - 1][k..];
    }
  }

  lemma NewerIsTail(all: seq<Envelope>, from: nat, cursor: int)
    requires Numbered(all) && from <= |all|
    ensures Newer(all[from..], cursor) ==
      if cursor <= from then all[from..] else if cursor >= |all| then [] else all[cursor..]
  {
    hide Newer;
    var k := if cursor <= from then from else if cursor >= |all| then |all| else cursor;
    NewerDropsFront(all[from..], k - from, cursor);
    assert all[from..][k - from..] == all[k..];
    NewerKeepsAll(all[k..], cursor);
  }

  lemma NewerNext(s: seq<Envelope>, i: nat, cursor: int)
    requires i < |s|
    ensures Newer(s[..i + 1], cursor) == Newer(s[..i], cursor) + if s[i].seqNo > cursor then [s[i]] else []
  {
    assert s[..i + 1][..i] == s[..i];
  }

  lemma LoudNext(s: seq<Envelope>, i: nat, level: string)
    requires i < |s|
    ensures Loud(s[..i + 1], level) == Loud(s[..i], level) + if AtLeast(s[i], level) then [s[i]] else []
  {
    assert s[..i + 1][..i] == s[..i];
  }

  lemma {:induction false} LoudJoin(s: seq<Envelope>, t: seq<Envelope>, level: string)
    ensures Loud(s + t, level) == Loud(s, level) + Loud(t, level)
  {
    hide AtLeast;
    if t == [] {
      assert s + t == s;
    } else {
      LoudJoin(s, t[..|t| - 1], level);
      assert (s + t)[..|s + t| - 1] == s + t[..|t| - 1];
    }
  }

  lemma {:induction false} LoudShorter(s: seq<Envelope>, level: string)
    ensures |Loud(s, level)| <= |s|
    ensures |Loud(s, level)| == |s| ==> Loud(s, level) == s
  {
    hide AtLeast;
    if s != [] {
      LoudShorter(s[..|s| - 1], level);
      assert s == s[..|s| - 1] + [s[|s| - 1]];
    }
  }

  // Filtering before slicing, as the code does, and after, as its comment says, give the
  // same answer exactly when the slice is all loud or nothing before it is.
  lemma OrdersAgree(buffer: seq<Envelope>, limit: nat, level: string)
    requires limit > 0
    ensures var slice := Suffix(buffer, limit);
      Suffix(Loud(buffer, level), limit) == Loud(slice, level) <==>
        Loud(slice, level) == slice || Loud(buffer[..|buffer| - |slice|], level) == []
  {
    hide Loud;
    var slice := Suffix(buffer, limit);
    var before := buffer[..|buffer| - |slice|];
    assert buffer == before + slice;
    LoudJoin(before, slice, level);
    LoudShorter(slice, level);
    LoudShorter(before, level);
    var p, q := Loud(before, level), Loud(slice, level);
    if p == [] {
      assert p + q == q;
    } else if |q| == limit {
      assert Suffix(p + q, limit) == q;
    }
  }

  // A ring of an error and then a debug line, asked for one line at error level; and a
  // level name, of the kind logging.addLevelName makes, on which a filtered call raises.
  lemma OrdersDiffer(error: Envelope, debug: Envelope)
    requires error.level == "ERROR" && debug.level == "DEBUG"
    ensures Suffix(Loud([error, debug], "ERROR"), 1) == [error] && Loud(Suffix([error, debug], 1), "ERROR") == []
    ensures !Known("NOTICE")
  {
    hide Loud, AtLeast, LevelIndex, Known, Suffix;
    LevelsRanked(error, debug);
    LoudNext([error, debug], 0, "ERROR");
    LoudNext([error, debug], 1, "ERROR");
    LoudOfNone("ERROR");
    assert [error, debug][..0] == [] && [error, debug][..1] == [error] && [error, debug][..2] == [error, debug];
    LoudNext([debug], 0, "ERROR");
    assert [debug][..0] == [] && [debug][..1] == [debug];
    LastOfTwo(error, debug);
  }

  lemma LastOfTwo(e: Envelope, d: Envelope)
    ensures Suffix([e, d], 1) == [d] && Suffix([e], 1) == [e]
  {
  }

  lemma LevelsRanked(error: Envelope, debug: Envelope)
    requires error.level == "ERROR" && debug.level == "DEBUG"
    ensures AtLeast(error, "ERROR") && !AtLeast(debug, "ERROR") && !Known("NOTICE")
  {
    assert LevelIndex("ERROR", 3) == 3 && LevelIndex("ERROR", 2) == 3 && LevelIndex("ERROR", 1) == 3;
    assert LevelIndex("DEBUG", 0) == 0;
  }

  function Severity(name: string): nat {
    if name == "DEBUG" then 10
    else if name == "INFO" then 20
    else if name == "WARNING" then 30
    else if name == "ERROR" then 40
    else 50
  }

  predicate Standard(name: string) {
    name == "DEBUG" || name == "INFO" || name == "WARNING" || name == "ERROR" || name == "CRITICAL"
  }

  // The five levels a filter knows, in the order of their severity.
  lemma LevelsAre(e: Envelope, level: string)
    ensures Known(level) <==> Standard(level)
    ensures Standard(e.level) && Standard(level) ==> (AtLeast(e, level) <==> Severity(e.level) >= Severity(level))
  {
    LevelAt(level);
    LevelAt(e.level);
  }

  lemma LevelAt(name: string)
    ensures LevelIndex(name, 0) < 5 <==> Standard(name)
    ensures Standard(name) ==> 10 * (LevelIndex(name, 0) + 1) == Severity(name)
  {
    assert LevelIndex(name, 5) == 5;
    assert LevelIndex(name, 4) == if name == "CRITICAL" then 4 else 5;
    assert LevelIndex(name, 3) == if name == "ERROR" then 3 else LevelIndex(name, 4);
    assert LevelIndex(name, 2) == if name == "WARNING" then 2 else LevelIndex(name, 3);
    assert LevelIndex(name, 1) == if name == "INFO" then 1 else LevelIndex(name, 2);
    assert LevelIndex(name, 0) == if name == "DEBUG" then 0 else LevelIndex(name, 1);
  }

  lemma NewerIsSurvivors(all: seq<Envelope>, maxlen: nat, cursor: int)
    requires Numbered(all)
    ensures Newer(Suffix(all, maxlen), cursor) == Survivors(all, maxlen, cursor)
  {
    var from := if |all| > maxlen then |all| - maxlen else 0;
    assert Suffix(all, maxlen) == all[from..];
    NewerIsTail(all, from, cursor);
  }

  class LogBufferHandler {
    const maxlen: nat
    var buffer: seq<Envelope>
    var nextSeq: nat
    ghost var all: seq<Envelope>

    // The ring is the last maxlen records ever emitted, numbered without a gap.
    ghost predicate Valid()
      reads this
    {
      && Numbered(all) && nextSeq == |all| + 1
      && buffer == Suffix(all, maxlen)
    }

    constructor (maxlen: nat)
      ensures Valid() && this.maxlen == maxlen && all == []
    {
      this.maxlen, buffer, nextSeq, all := maxlen, [], 1, [];
    }

    method Emit(record: Record)
      requires Valid()
      modifies this
      ensures Valid()
      ensures all == old(all) + if record.Some? then [record.value.(seqNo := old(nextSeq))] else []
    {
      if record.None? {
        return;
      }
      var envelope := record.value.(seqNo := nextSeq);
      nextSeq := nextSeq + 1;
      // deque.append with a maxlen: the oldest entry falls off a full ring.
      buffer := buffer + [envelope];
      if |buffer| > maxlen {
        buffer := buffer[1..];
      }
      all := all + [envelope];
    }

    // The filter comes first and the limit second, so the answer is the last `limit`
    // of the buffered envelopes at or above the level. A buffered record whose level
    // is not one of the five names makes a filtered call fail, whatever the level asked.
    method Recent(limit: int, minLevel: Option<string>) returns (r: Result<seq<Envelope>, Failure>)
      requires Valid()
      ensures minLevel.None? || !Known(minLevel.value) ==>
        r == Ok(if limit > 0 then Suffix(Suffix(all, maxlen), limit) else Suffix(all, maxlen))
      ensures minLevel.Some? && Known(minLevel.value) ==>
        (r.Ok? <==> forall e <- Suffix(all, maxlen) :: Known(e.level))
      ensures minLevel.Some? && Known(minLevel.value) && r.Ok? ==>
        var loud := Loud(Suffix(all, maxlen), minLevel.value);
        r.value == if limit > 0 then Suffix(loud, limit) else loud
    {
      hide Loud, LevelIndex, AtLeast;
      var snapshot := buffer;
      if minLevel.Some? && Known(minLevel.value) {
        var kept := [];
        LoudOfNone(minLevel.value);
        for i := 0 to |snapshot|
          invariant kept == Loud(snapshot[..i], minLevel.value)
          invariant forall j | 0 <= j < i :: Known(snapshot[j].level)
        {
          LoudNext(snapshot, i, minLevel.value);
          if !Known(snapshot[i].level) {
            assert snapshot[i] in snapshot;
            return Err(UnknownLevel(snapshot[i].level));
          }
          if AtLeast(snapshot[i], minLevel.value) {
            kept := kept + [snapshot[i]];
          }
        }
        assert snapshot[..|snapshot|] == snapshot;
        snapshot := kept;
      }
      r := Ok(if limit > 0 && |snapshot| > limit then snapshot[|snapshot| - limit..] else snapshot);
    }

    // Everything past the cursor that the ring still holds, and where to resume.
    method Since(lastSeen: int) returns (found: seq<Envelope>, newest: nat)
      requires Valid()
      ensures newest == |all|
      ensures found == Survivors(all, maxlen, lastSeen)
    {
      hide Newer, Survivors, Suffix;
      newest := nextSeq - 1;
      found := [];
      NewerOfNone(lastSeen);
      for i := 0 to |buffer|
        invariant found == Newer(buffer[..i], lastSeen)
      {
        NewerNext(buffer, i, lastSeen);
        if buffer[i].seqNo > lastSeen {
          found := found + [buffer[i]];
        }
      }
      assert buffer[..|buffer|] == buffer;
      NewerIsSurvivors(all, maxlen, lastSeen);
    }
  }

  lemma LoudOfNone(level: string)
    ensures Loud([], level) == []
  {
  }

  lemma NewerOfNone(cursor: int)
    ensures Newer([], cursor) == []
  {
  }

  // What a poll at this cursor yields, out of everything ever emitted.
  function Survivors(all: seq<Envelope>, maxlen: nat, cursor: int): seq<Envelope> {
    var from := if |all| > maxlen then |all| - maxlen else 0;
    if cursor <= from then all[from..] else if cursor >= |all| then [] else all[cursor..]
  }

  // ---- Polling: one subscriber against any sequence of emits ----

  datatype LogEvent = Emitted(e: Envelope) | Polled

  datatype Poller = Poller(
    all: seq<Envelope>,
    start: nat,               // the cursor on connect
    cursor: nat,
    delivered: seq<Envelope>,
    missed: nat)              // records evicted before a poll reached them

  function Connect(all: seq<Envelope>): Poller {
    Poller(all, |all|, |all|, [], 0)
  }

  function Evicted(p: Poller, maxlen: nat): nat {
    if |p.all| - p.cursor > maxlen then |p.all| - p.cursor - maxlen else 0
  }

  function PollerStep(p: Poller, maxlen: nat, e: LogEvent): Poller {
    match e
    case Emitted(env) => p.(all := p.all + [env.(seqNo := |p.all| + 1)])
    case Polled =>
      var found := Survivors(p.all, maxlen, p.cursor);
      if found == [] then p
      else p.(cursor := |p.all|, delivered := p.delivered + found, missed := p.missed + Evicted(p, maxlen))
  }

  function PollerRun(all: seq<Envelope>, maxlen: nat, events: seq<LogEvent>): Poller {
    if events == [] then Connect(all)
    else PollerStep(PollerRun(all, maxlen, events[..|events| - 1]), maxlen, events[|events| - 1])
  }

  ghost predicate Authentic(p: Poller) {
    && Numbered(p.all) && p.start <= p.cursor <= |p.all|
    && forall i | 0 <= i < |p.delivered| ::
          p.start < p.delivered[i].seqNo <= p.cursor && p.delivered[i] == p.all[p.delivered[i].seqNo - 1]
  }

  ghost predicate PollerOk(p: Poller) {
    && Authentic(p)
    && (forall i, j | 0 <= i < j < |p.delivered| :: p.delivered[i].seqNo < p.delivered[j].seqNo)
    && |p.delivered| + p.missed == p.cursor - p.start
  }

  lemma SurvivorsAreTail(all: seq<Envelope>, maxlen: nat, cursor: nat)
    requires Numbered(all) && cursor <= |all|
    ensures
      var found := Survivors(all, maxlen, cursor);
      |found| <= |all| - cursor && found == all[|all| - |found|..]
  {
  }

  lemma PollIsAuthentic(p: Poller, maxlen: nat)
    requires Authentic(p)
    ensures Authentic(PollerStep(p, maxlen, Polled))
    ensures forall k | 0 <= k < |Survivors(p.all, maxlen, p.cursor)| ::
      Survivors(p.all, maxlen, p.cursor)[k].seqNo == |p.all| - |Survivors(p.all, maxlen, p.cursor)| + k + 1 > p.cursor
  {
    hide Survivors;
    SurvivorsAreTail(p.all, maxlen, p.cursor);
    var found := Survivors(p.all, maxlen, p.cursor);
    forall k | 0 <= k < |found| ensures found[k] == p.all[|p.all| - |found| + k] {
    }
  }

  lemma PollKeepsOk(p: Poller, maxlen: nat)
    requires PollerOk(p)
    ensures PollerOk(PollerStep(p, maxlen, Polled))
  {
    hide Authentic;
    PollIsAuthentic(p, maxlen);
    PollCounts(p, maxlen);
    assert forall i | 0 <= i < |p.delivered| :: p.delivered[i].seqNo <= p.cursor;
  }

  lemma PollCounts(p: Poller, maxlen: nat)
    requires Authentic(p)
    ensures p.cursor <= |p.all|
    ensures |Survivors(p.all, maxlen, p.cursor)| + Evicted(p, maxlen) == |p.all| - p.cursor
    ensures forall i | 0 <= i < |p.delivered| :: p.delivered[i].seqNo <= p.cursor
  {
  }

  // In every run the poller has delivered, in order and once each, records of the log
  // past its start, all but the ones evicted before a poll came round.
  lemma {:induction false} PollingDelivers(all: seq<Envelope>, maxlen: nat, events: seq<LogEvent>)
    requires Numbered(all)
    ensures PollerOk(PollerRun(all, maxlen, events))
  {
    hide Survivors;
    if events != [] {
      PollingDelivers(all, maxlen, events[..|events| - 1]);
      var p := PollerRun(all, maxlen, events[..|events| - 1]);
      if events[|events| - 1].Polled? {
        PollKeepsOk(p, maxlen);
      }
    }
  }

  ghost predicate Gapless(p: Poller) {
    p.start <= p.cursor <= |p.all| && p.missed == 0 && p.delivered == p.all[p.start..p.cursor]
  }

  lemma StepGapless(p: Poller, maxlen: nat, e: LogEvent)
    requires Gapless(p) && (e.Polled? ==> |p.all| - p.cursor <= maxlen)
    ensures Gapless(PollerStep(p, maxlen, e))
  {
    if e.Polled? {
      if Survivors(p.all, maxlen, p.cursor) != [] {
        assert Survivors(p.all, maxlen, p.cursor) == p.all[p.cursor..];
        assert p.all[p.start..p.cursor] + p.all[p.cursor..] == p.all[p.start..];
        assert p.all[p.start..|p.all|] == p.all[p.start..];
      }
    } else {
      var p' := PollerStep(p, maxlen, e);
      assert p'.all[p.start..p.cursor] == p.all[p.start..p.cursor];
    }
  }

  // A poller that never lets more than the ring's length go by misses nothing: it has
  // delivered exactly the log from its start to its cursor.
  lemma {:induction false} KeepingUpDeliversAll(all: seq<Envelope>, maxlen: nat, events: seq<LogEvent>)
    requires forall i | 0 <= i < |events| && events[i].Polled? :: !Lagging(PollerRun(all, maxlen, events[..i]), maxlen)
    ensures Gapless(PollerRun(all, maxlen, events))
  {
    hide PollerStep;
    if events != [] {
      var earlier := events[..|events| - 1];
      forall i | 0 <= i < |earlier| && earlier[i].Polled? ensures !Lagging(PollerRun(all, maxlen, earlier[..i]), maxlen) {
        assert earlier[..i] == events[..i];
      }
      KeepingUpDeliversAll(all, maxlen, earlier);
      StepGapless(PollerRun(all, maxlen, earlier), maxlen, events[|events| - 1]);
    }
  }

  predicate Lagging(p: Poller, maxlen: nat) {
    |p.all| - p.cursor > maxlen
  }

  // The records emitted in a run, numbered on from those before it.
  function Emits(events: seq<LogEvent>, before: nat): seq<Envelope> {
    if events == [] then []
    else
      var earlier := Emits(events[..|events| - 1], before);
      match events[|events| - 1]
      case Emitted(e) => earlier + [Envelope(before + |earlier| + 1, e.ts, e.level, e.logger, e.message)]
      case Polled => earlier
  }

  lemma {:induction false} LogIsEmitted(all: seq<Envelope>, maxlen: nat, events: seq<LogEvent>)
    ensures PollerRun(all, maxlen, events).all == all + Emits(events, |all|)
    ensures PollerRun(all, maxlen, events).start == |all|
  {
    hide Survivors;
    if events == [] {
      assert all + [] == all;
    } else {
      var n := |events| - 1;
      LogIsEmitted(all, maxlen, events[..n]);
      if events[n].Emitted? {
        var earlier, now := Emits(events[..n], |all|), Emits(events, |all|);
        assert all + now == (all + earlier) + [now[|earlier|]];
      }
    }
  }

  // A poll brings the poller up to date: all it had not seen, or the last ring's worth.
  lemma PollCatchesUp(all: seq<Envelope>, maxlen: nat, events: seq<LogEvent>)
    requires Numbered(all) && maxlen > 0
    ensures
      var p, p' := PollerRun(all, maxlen, events), PollerRun(all, maxlen, events + [Polled]);
      && p'.all == p.all && p'.cursor == |p.all|
      && p.cursor <= |p.all|
      && p'.delivered == p.delivered + Suffix(p.all[p.cursor..], maxlen)
  {
    hide PollerStep;
    assert (events + [Polled])[..|events|] == events;
    PollingDelivers(all, maxlen, events);
    OnePoll(PollerRun(all, maxlen, events), maxlen);
  }

  lemma OnePoll(p: Poller, maxlen: nat)
    requires p.cursor <= |p.all| && maxlen > 0
    ensures var p' := PollerStep(p, maxlen, Polled);
      && p'.all == p.all && p'.cursor == |p.all|
      && p'.delivered == p.delivered + Suffix(p.all[p.cursor..], maxlen)
  {
    var from := if |p.all| > maxlen then |p.all| - maxlen else 0;
    if p.cursor <= from {
      assert Suffix(p.all[p.cursor..], maxlen) == p.all[from..];
    } else {
      assert Suffix(p.all[p.cursor..], maxlen) == p.all[p.cursor..];
    }
    assert p.delivered + [] == p.delivered;
  }
}
