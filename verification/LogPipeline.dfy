/** The log ring, the poller and the browser's buffer put together. */
module LogPipeline {
  import opened Options
  import opened Sequences
  import opened LogBuffer
  import opened LogStream

  // ---- Frames of the log ----

  function Frames(envelopes: seq<Envelope>): seq<ClientEvent> {
    seq(|envelopes|, i requires 0 <= i < |envelopes| => Live(envelopes[i]))
  }

  function Fold(cap: Option<nat>, d: LogData, events: seq<ClientEvent>): LogData {
    if events == [] then d else Take(cap, Fold(cap, d, events[..|events| - 1]), events[|events| - 1])
  }

  lemma {:induction false} RunIsFold(cap: Option<nat>, before: seq<ClientEvent>, after: seq<ClientEvent>)
    ensures Run(cap, before + after) == Fold(cap, Run(cap, before), after)
  {
    hide Take;
    if after == [] {
      assert before + after == before;
    } else {
      RunIsFold(cap, before, after[..|after| - 1]);
      assert (before + after)[..|before + after| - 1] == before + after[..|after| - 1];
    }
  }

  function Max(a: nat, b: nat): nat {
    if a < b then b else a
  }

  function Min(a: nat, b: nat): nat {
    if a < b then a else b
  }

  // What a run of the log's frames does, capped or not: those already covered change
  // nothing, and the rest are appended.
  ghost function Extended(cap: Option<nat>, d: LogData, all: seq<Envelope>, i: nat, j: nat): LogData
    requires i <= j <= |all|
  {
    if j <= d.lastSeenSeq || i == j then d
    else
      var from := if d.lastSeenSeq > i then d.lastSeenSeq else i;
      LogData(Trim(cap, d.envelopes + all[from..j]), j)
  }

  lemma {:induction false} FramesExtend(cap: Option<nat>, d: LogData, all: seq<Envelope>, i: nat, j: nat)
    requires Numbered(all) && i <= j <= |all| && Trim(cap, d.envelopes) == d.envelopes
    ensures Fold(cap, d, Frames(all[i..j])) == Extended(cap, d, all, i, j)
    decreases j - i
  {
    hide Trim, Extended, ReduceLog;
    var frames := Frames(all[i..j]);
    if i == j {
      assert frames == [];
      NothingExtends(cap, d, all, i);
    } else {
      assert frames[..|frames| - 1] == Frames(all[i..j - 1]);
      assert frames[|frames| - 1] == Live(all[j - 1]);
      FramesExtend(cap, d, all, i, j - 1);
      OneMoreFrame(cap, d, all, i, j);
    }
  }

  lemma NothingExtends(cap: Option<nat>, d: LogData, all: seq<Envelope>, i: nat)
    requires i <= |all|
    ensures Extended(cap, d, all, i, i) == d
  {
  }

  lemma OneMoreFrame(cap: Option<nat>, d: LogData, all: seq<Envelope>, i: nat, j: nat)
    requires Numbered(all) && i < j <= |all| && Trim(cap, d.envelopes) == d.envelopes
    ensures ReduceLog(cap, Extended(cap, d, all, i, j - 1), all[j - 1]) == Extended(cap, d, all, i, j)
  {
    hide Trim;
    var from := if d.lastSeenSeq > i then d.lastSeenSeq else i;
    if j > d.lastSeenSeq {
      var e, before := all[j - 1], all[from..j - 1];
      assert all[from..j] == before + [e];
      assert d.envelopes + all[from..j] == (d.envelopes + before) + [e];
      TrimThenAppend(cap, d.envelopes + before, e);
      assert from == j - 1 ==> d.envelopes + before == d.envelopes;
    }
  }

  lemma TrimThenAppend(cap: Option<nat>, s: seq<Envelope>, e: Envelope)
    ensures Trim(cap, Trim(cap, s) + [e]) == Trim(cap, s + [e])
  {
    if cap.Some? {
      SuffixThenSnoc(s, e, cap.value);
    }
  }

  // ---- A backfill fills in the rest ----

  ghost predicate Genuine(all: seq<Envelope>, e: Envelope, a: nat, b: nat) {
    a < e.seqNo <= b <= |all| && e == all[e.seqNo - 1]
  }

  lemma {:induction false} UnseenHas(from: seq<Envelope>, seen: seq<Envelope>, k: nat)
    ensures Has(Unseen(from, seen), k) <==> Has(from, k) && !Has(seen, k)
  {
    hide Has;
    if from == [] {
      HasNone(k);
    } else {
      var r, last := Unseen(from[..|from| - 1], seen), from[|from| - 1];
      UnseenHas(from[..|from| - 1], seen, k);
      HasSnoc(from[..|from| - 1], last, k);
      HasSnoc(r, last, k);
      assert from == from[..|from| - 1] + [last];
    }
  }

  lemma HasNone(k: nat)
    ensures !Has([], k)
  {
  }

  lemma HasSnoc(s: seq<Envelope>, x: Envelope, k: nat)
    ensures Has(s + [x], k) <==> Has(s, k) || x.seqNo == k
  {
    if Has(s, k) {
      var i :| 0 <= i < |s| && s[i].seqNo == k;
      assert (s + [x])[i].seqNo == k;
    }
    assert (s + [x])[|s|] == x;
  }

  lemma SliceHas(all: seq<Envelope>, a: nat, b: nat, k: nat)
    requires Numbered(all) && a <= b <= |all|
    ensures Has(all[a..b], k) <==> a < k <= b
  {
    if a < k <= b {
      assert all[a..b][k - 1 - a] == all[k - 1];
    }
  }

  lemma MergedHas(u: seq<Envelope>, backfill: seq<Envelope>, k: nat)
    requires Sorted(u)
    ensures Has(Sort(u + Unseen(backfill, u)), k) <==> Has(u, k) || Has(backfill, k)
  {
    hide Sort, Has, Unseen, Count, InsertAll, Insert;
    var added := Unseen(backfill, u);
    SortMerges(u, added);
    InsertAllCounts(u, added, k);
    CountHas(u, k);
    CountHas(added, k);
    CountHas(InsertAll(u, added), k);
    UnseenHas(backfill, u, k);
  }

  lemma MergedFrom(u: seq<Envelope>, backfill: seq<Envelope>, e: Envelope)
    requires Sorted(u) && e in Sort(u + Unseen(backfill, u))
    ensures e in u || e in backfill
  {
    hide Sort, Unseen, InsertAll, Insert;
    var added := Unseen(backfill, u);
    SortMerges(u, added);
    InsertAllSorted(u, added);
    assert e in multiset(InsertAll(u, added));
    assert e in multiset(u) || e in multiset(added);
  }

  // A list of genuine records in strict order is determined by which numbers it has.
  ghost predicate GenuineList(all: seq<Envelope>, s: seq<Envelope>) {
    Ascending(s) && forall i | 0 <= i < |s| :: Genuine(all, s[i], 0, |all|)
  }

  lemma {:induction false} GenuineUnique(all: seq<Envelope>, s: seq<Envelope>, t: seq<Envelope>)
    requires GenuineList(all, s) && GenuineList(all, t) && forall k: nat :: Has(s, k) <==> Has(t, k)
    ensures s == t
  {
    hide Has;
    if s == [] || t == [] {
      EmptyHas(s);
      EmptyHas(t);
    } else {
      var x, y := s[|s| - 1], t[|t| - 1];
      LastIsGreatest(s);
      LastIsGreatest(t);
      assert Has(s, x.seqNo) && Has(t, y.seqNo);
      assert x.seqNo == y.seqNo && x == y by {
        assert Genuine(all, x, 0, |all|) && Genuine(all, y, 0, |all|);
      }
      var s', t' := s[..|s| - 1], t[..|t| - 1];
      forall k: nat
        ensures Has(s', k) <==> Has(t', k)
      {
        InitHas(s, k);
        InitHas(t, k);
      }
      GenuineUnique(all, s', t');
      assert s == s' + [x] && t == t' + [y];
    }
  }

  lemma EmptyHas(s: seq<Envelope>)
    ensures s != [] ==> Has(s, s[0].seqNo)
    ensures s == [] ==> forall k: nat :: !Has(s, k)
  {
  }

  lemma LastIsGreatest(s: seq<Envelope>)
    requires s != [] && Ascending(s)
    ensures Has(s, s[|s| - 1].seqNo) && forall k: nat | Has(s, k) :: k <= s[|s| - 1].seqNo
  {
  }

  lemma InitHas(s: seq<Envelope>, k: nat)
    requires s != [] && Ascending(s)
    ensures Has(s[..|s| - 1], k) <==> Has(s, k) && k != s[|s| - 1].seqNo
  {
    var init := s[..|s| - 1];
    if Has(init, k) {
      var i :| 0 <= i < |init| && init[i].seqNo == k;
      assert s[i].seqNo == k;
    }
    if Has(s, k) && k != s[|s| - 1].seqNo {
      var i :| 0 <= i < |s| && s[i].seqNo == k;
      assert init[i].seqNo == k;
    }
  }

  // Records a+1..b with a backfill of c+1..m merged in, in order.
  function Merged(all: seq<Envelope>, a: nat, b: nat, c: nat, m: nat): seq<Envelope>
    requires a <= b <= |all| && c < m <= |all|
  {
    if a == b then all[c..m]
    else if m < a then all[c..m] + all[a..b]
    else if b < c then all[a..b] + all[c..m]
    else all[Min(a, c)..Max(b, m)]
  }

  lemma MergedIsGenuine(all: seq<Envelope>, a: nat, b: nat, c: nat, m: nat)
    requires Numbered(all) && a <= b <= |all| && c < m <= |all|
    ensures GenuineList(all, Merged(all, a, b, c, m))
  {
    SliceIsGenuine(all, a, b);
    SliceIsGenuine(all, c, m);
    if a < b && m < a {
      GenuineJoin(all, all[c..m], all[a..b]);
    } else if a < b && b < c {
      GenuineJoin(all, all[a..b], all[c..m]);
    } else if a < b {
      SliceIsGenuine(all, Min(a, c), Max(b, m));
    }
  }

  lemma SliceIsGenuine(all: seq<Envelope>, a: nat, b: nat)
    requires Numbered(all) && a <= b <= |all|
    ensures GenuineList(all, all[a..b])
    ensures forall i | 0 <= i < b - a :: all[a..b][i].seqNo == a + i + 1
  {
  }

  lemma GenuineJoin(all: seq<Envelope>, s: seq<Envelope>, t: seq<Envelope>)
    requires GenuineList(all, s) && GenuineList(all, t)
    requires s != [] && t != [] ==> s[|s| - 1].seqNo < t[0].seqNo
    ensures GenuineList(all, s + t)
  {
  }

  lemma MergedNumbers(all: seq<Envelope>, a: nat, b: nat, c: nat, m: nat, k: nat)
    requires Numbered(all) && a <= b <= |all| && c < m <= |all|
    ensures Has(Merged(all, a, b, c, m), k) <==> a < k <= b || c < k <= m
  {
    hide Has;
    SliceHas(all, a, b, k);
    SliceHas(all, c, m, k);
    HasJoin(all[a..b], all[c..m], k);
    HasJoin(all[c..m], all[a..b], k);
    SliceHas(all, Min(a, c), Max(b, m), k);
  }

  lemma HasJoin(s: seq<Envelope>, t: seq<Envelope>, k: nat)
    ensures Has(s + t, k) <==> Has(s, k) || Has(t, k)
  {
    if Has(s, k) {
      var i :| 0 <= i < |s| && s[i].seqNo == k;
      assert (s + t)[i].seqNo == k;
    }
    if Has(t, k) {
      var i :| 0 <= i < |t| && t[i].seqNo == k;
      assert (s + t)[|s| + i].seqNo == k;
    }
  }

  lemma BackfillMerges(all: seq<Envelope>, a: nat, b: nat, c: nat, m: nat)
    requires Numbered(all) && a <= b <= |all| && c < m <= |all|
    ensures SeedLog(None, LogData(all[a..b], if a == b then 0 else b), all[c..m])
      == LogData(Merged(all, a, b, c, m), if a == b then m else Max(b, m))
  {
    hide Sort, Unseen, MaxSeq, Has, Merged, Ascending, Sorted;
    var u, backfill := all[a..b], all[c..m];
    var added := Unseen(backfill, u);
    SlicesAscend(all, a, b, c, m);
    SeedAscending(u, backfill);
    MergedIsGenuine(all, a, b, c, m);
    var merged := Sort(u + added);
    forall i | 0 <= i < |merged|
      ensures Genuine(all, merged[i], 0, |all|)
    {
      MergedFrom(u, backfill, merged[i]);
    }
    forall k: nat
      ensures Has(merged, k) <==> Has(Merged(all, a, b, c, m), k)
    {
      MergedHas(u, backfill, k);
      MergedNumbers(all, a, b, c, m, k);
      SliceHas(all, a, b, k);
      SliceHas(all, c, m, k);
    }
    GenuineUnique(all, merged, Merged(all, a, b, c, m));
    BackfillSeq(all, a, b, c, m);
    if added == [] {
      SortMerges(u, []);
      assert u + [] == u;
      NoneAdded(u, 0);
    }
  }

  lemma SlicesAscend(all: seq<Envelope>, a: nat, b: nat, c: nat, m: nat)
    requires Numbered(all) && a <= b <= |all| && c < m <= |all|
    ensures Sorted(all[a..b]) && Ascending(all[a..b]) && DistinctNumbers(all[c..m])
  {
  }

  // Where lastSeenSeq ends up after a backfill of records c+1..m.
  lemma BackfillSeq(all: seq<Envelope>, a: nat, b: nat, c: nat, m: nat)
    requires Numbered(all) && a <= b <= |all| && c < m <= |all|
    ensures
      var added, low := Unseen(all[c..m], all[a..b]), if a == b then 0 else b;
      && MaxSeq(low, added) == (if a == b then m else Max(b, m))
      && (added == [] ==> a < b && m <= b)
  {
    hide Unseen, MaxSeq, Has;
    var added := Unseen(all[c..m], all[a..b]);
    var low := if a == b then 0 else b;
    UnseenHas(all[c..m], all[a..b], m);
    SliceHas(all, c, m, m);
    SliceHas(all, a, b, m);
    HasNone(m);
    MaxBounds(low, added);
    MaxReached(low, added, m);
    forall i | 0 <= i < |added| ensures added[i].seqNo <= m {
      assert added[i] in all[c..m];
    }
    MaxAtMost(low, added, Max(low, m));
  }

  lemma MaxReached(low: int, s: seq<Envelope>, k: nat)
    ensures Has(s, k) ==> MaxSeq(low, s) >= k
  {
    MaxBounds(low, s);
  }

  lemma {:induction false} MaxAtMost(low: int, s: seq<Envelope>, bound: int)
    requires low <= bound && forall i | 0 <= i < |s| :: s[i].seqNo <= bound
    ensures MaxSeq(low, s) <= bound
  {
    if s != [] {
      MaxAtMost(low, s[..|s| - 1], bound);
    }
  }

  // ---- End to end ----

  // The stream joined the log at `start` and has delivered it gaplessly up to `end`;
  // when it had delivered up to `arrived`, a backfill of the records after `from` up to
  // `upTo` came in.
  function Session(all: seq<Envelope>, start: nat, arrived: nat, end: nat, from: nat, upTo: nat): seq<ClientEvent>
    requires start <= arrived <= end <= |all| && from < upTo <= |all|
  {
    Frames(all[start..arrived]) + [Seed(all[from..upTo])] + Frames(all[arrived..end])
  }

  // What the unbounded list then holds. A backfill that ended before the stream joined
  // leaves the records in between out. So does one that starts past what has arrived,
  // because it moves lastSeenSeq past frames still to come.
  function Shown(all: seq<Envelope>, start: nat, arrived: nat, end: nat, from: nat, upTo: nat): seq<Envelope>
    requires start <= arrived <= end <= |all| && from < upTo <= |all|
  {
    if upTo < start then all[from..upTo] + all[start..end]
    else if from > arrived then all[start..arrived] + all[from..Max(upTo, end)]
    else all[Min(from, start)..Max(upTo, end)]
  }

  lemma SessionShows(all: seq<Envelope>, start: nat, arrived: nat, end: nat, from: nat, upTo: nat)
    requires Numbered(all) && start <= arrived <= end <= |all| && from < upTo <= |all|
    ensures Run(None, Session(all, start, arrived, end, from, upTo)).envelopes
      == Shown(all, start, arrived, end, from, upTo)
  {
    hide Take, SeedLog, Run, Fold, Frames, Numbered, Merged;
    var live, late := Frames(all[start..arrived]), Frames(all[arrived..end]);
    var seed := Seed(all[from..upTo]);
    var d1 := LogData(all[start..arrived], if start == arrived then 0 else arrived);
    EmptyRun();
    RunIsFold(None, [], live);
    assert [] + live == live;
    FramesExtend(None, EMPTY, all, start, arrived);
    assert [] + all[start..arrived] == all[start..arrived];
    assert Run(None, live) == d1;
    BackfillMerges(all, start, arrived, from, upTo);
    RunIsFold(None, live, [seed]);
    OneEvent(None, d1, seed);
    SeedIsTaken(None, d1, all[from..upTo]);
    var d2 := SeedLog(None, d1, all[from..upTo]);
    RunIsFold(None, live + [seed], late);
    FramesExtend(None, d2, all, arrived, end);
    LateFramesJoin(all, start, arrived, end, from, upTo);
  }

  lemma LateFramesJoin(all: seq<Envelope>, start: nat, arrived: nat, end: nat, from: nat, upTo: nat)
    requires start <= arrived <= end <= |all| && from < upTo <= |all|
    ensures var d := LogData(Merged(all, start, arrived, from, upTo),
        if start == arrived then upTo else Max(arrived, upTo));
      Extended(None, d, all, arrived, end).envelopes == Shown(all, start, arrived, end, from, upTo)
  {
    hide Merged, Shown;
    var m := Merged(all, start, arrived, from, upTo);
    var seen := Max(arrived, upTo);
    var late := if end <= seen then [] else all[seen..end];
    assert m + [] == m;
    if start == arrived {
      FirstMerge(all, arrived, end, from, upTo);
    } else {
      SecondMerge(all, start, arrived, end, from, upTo);
    }
  }

  lemma FirstMerge(all: seq<Envelope>, start: nat, end: nat, from: nat, upTo: nat)
    requires start <= end <= |all| && from < upTo <= |all|
    ensures var seen := Max(start, upTo);
      Merged(all, start, start, from, upTo) + (if end <= seen then [] else all[seen..end])
        == Shown(all, start, start, end, from, upTo)
  {
  }

  lemma SecondMerge(all: seq<Envelope>, start: nat, arrived: nat, end: nat, from: nat, upTo: nat)
    requires start < arrived <= end <= |all| && from < upTo <= |all|
    ensures var seen := Max(arrived, upTo);
      Merged(all, start, arrived, from, upTo) + (if end <= seen then [] else all[seen..end])
        == Shown(all, start, arrived, end, from, upTo)
  {
    var top := Max(upTo, end);
    if upTo < start {
      SlicesJoin(all, start, arrived, end);
      Regroup(all[from..upTo], all[start..arrived], all[arrived..end]);
    } else if from > arrived {
      SlicesJoin(all, from, upTo, top);
      Regroup(all[start..arrived], all[from..upTo], all[upTo..top]);
    } else {
      SlicesJoin(all, Min(from, start), Max(arrived, upTo), top);
    }
  }

  lemma SlicesJoin(all: seq<Envelope>, a: nat, b: nat, c: nat)
    requires a <= b <= c <= |all|
    ensures all[a..b] + all[b..c] == all[a..c]
  {
  }

  lemma Regroup(s: seq<Envelope>, t: seq<Envelope>, u: seq<Envelope>)
    ensures (s + t) + u == s + (t + u)
  {
  }

  lemma EmptyRun()
    ensures Run(None, []) == EMPTY
  {
  }

  lemma OneEvent(cap: Option<nat>, d: LogData, e: ClientEvent)
    ensures Fold(cap, d, [e]) == Take(cap, d, e)
  {
    assert [e][..0] == [];
  }

  lemma SeedIsTaken(cap: Option<nat>, d: LogData, backfill: seq<Envelope>)
    ensures Take(cap, d, Seed(backfill)) == SeedLog(cap, d, backfill)
  {
  }

  // The records above the hole, when there is one.
  function AboveHole(start: nat, end: nat, from: nat, upTo: nat): nat
    requires start <= end
  {
    if upTo < start then end - start else Max(upTo, end) - Min(from, Max(upTo, end))
  }

  // The page shows the newest 2000 records of the log exactly when the backfill was read
  // no earlier than the stream joined and reaches back to what had arrived, or the hole it
  // leaves lies below the newest 2000.
  lemma ColdLoadIsComplete(all: seq<Envelope>, start: nat, arrived: nat, end: nat, from: nat, upTo: nat)
    requires Numbered(all) && start <= arrived <= end <= |all| && from < upTo <= |all|
    ensures Run(Some(MAX_BUFFERED), Session(all, start, arrived, end, from, upTo)).envelopes
        == Suffix(all[Min(from, start)..Max(upTo, end)], MAX_BUFFERED)
      <==> (start <= upTo && from <= arrived) || AboveHole(start, end, from, upTo) >= MAX_BUFFERED
  {
    hide Run, Session;
    SessionShows(all, start, arrived, end, from, upTo);
    BufferIsNewest(Session(all, start, arrived, end, from, upTo));
    MatchesSuffix(Session(all, start, arrived, end, from, upTo));
    if upTo < start {
      HoleShows(all, from, upTo, start, end, MAX_BUFFERED);
    } else if from > arrived {
      HoleShows(all, start, arrived, from, Max(upTo, end), MAX_BUFFERED);
    }
  }

  // Records a+1..b and c+1..m without those in between: their newest n are those of
  // a+1..m exactly when the upper part alone has n.
  lemma HoleShows(all: seq<Envelope>, a: nat, b: nat, c: nat, m: nat, n: nat)
    requires Numbered(all) && a <= b < c <= m <= |all| && n > 0
    ensures Suffix(all[a..b] + all[c..m], n) == Suffix(all[a..m], n) <==> m - c >= n
  {
    var holed, whole := all[a..b] + all[c..m], all[a..m];
    if m - c >= n {
      SuffixOfTail(all[a..b], all[c..m], n);
      assert whole == all[a..c] + all[c..m];
      SuffixOfTail(all[a..c], all[c..m], n);
    } else {
      HoleIsSeen(all, a, b, c, m, n);
    }
  }

  lemma SuffixOfTail(s: seq<Envelope>, t: seq<Envelope>, n: nat)
    requires |t| >= n
    ensures Suffix(s + t, n) == Suffix(t, n)
  {
  }

  lemma HoleIsSeen(all: seq<Envelope>, a: nat, b: nat, c: nat, m: nat, n: nat)
    requires Numbered(all) && a <= b < c <= m <= |all| && m - c < n
    ensures Suffix(all[a..b] + all[c..m], n) != Suffix(all[a..m], n)
  {
    hide Suffix;
    var holed, whole, k := all[a..b] + all[c..m], all[a..m], m - c;
    var s, t := Suffix(holed, n), Suffix(whole, n);
    assert t[|t| - 1 - k] == whole[|whole| - 1 - k] == all[c - 1];
    if |s| > k {
      assert s[|s| - 1 - k] == holed[|holed| - 1 - k] == all[b - 1];
    }
  }

  lemma MatchesSuffix(events: seq<ClientEvent>)
    ensures Run(Some(MAX_BUFFERED), events).envelopes == Suffix(Run(None, events).envelopes, MAX_BUFFERED)
  {
    BufferIsNewest(events);
  }

  // The two ways to leave a hole: reading before the stream joins, and a first page of the
  // backfill that starts past everything that has arrived.
  lemma EarlyColdLoadLeavesHole(all: seq<Envelope>)
    requires Numbered(all) && |all| == 3
    ensures Run(Some(MAX_BUFFERED), Session(all, 2, 2, 3, 0, 1)).envelopes == [all[0], all[2]]
    ensures Run(Some(MAX_BUFFERED), Session(all, 0, 0, 3, 1, 2)).envelopes == [all[1], all[2]]
  {
    hide Run, Session, Shown, Suffix, Numbered;
    SessionShows(all, 2, 2, 3, 0, 1);
    SessionShows(all, 0, 0, 3, 1, 2);
    MatchesSuffix(Session(all, 2, 2, 3, 0, 1));
    MatchesSuffix(Session(all, 0, 0, 3, 1, 2));
    HolesShown(all);
  }

  lemma HolesShown(all: seq<Envelope>)
    requires |all| == 3
    ensures Shown(all, 2, 2, 3, 0, 1) == [all[0], all[2]] == Suffix([all[0], all[2]], MAX_BUFFERED)
    ensures Shown(all, 0, 0, 3, 1, 2) == [all[1], all[2]] == Suffix([all[1], all[2]], MAX_BUFFERED)
  {
  }

  // ---- A backend that starts again ----

  // The channel's state survives a reconnect but the backend's numbering does not
  // survive a restart. Records i+1..j of the new process change nothing exactly when
  // none is numbered past the last one seen from the old process, and otherwise only
  // those past it are shown.
  lemma RestartIsSilent(cap: Option<nat>, d: LogData, log: seq<Envelope>, i: nat, j: nat)
    requires Numbered(log) && i <= j <= |log| && Trim(cap, d.envelopes) == d.envelopes
    ensures Fold(cap, d, Frames(log[i..j])) == d <==> j <= d.lastSeenSeq || i == j
    ensures !(j <= d.lastSeenSeq || i == j) ==>
      var from := if d.lastSeenSeq > i then d.lastSeenSeq else i;
      Fold(cap, d, Frames(log[i..j])) == LogData(Trim(cap, d.envelopes + log[from..j]), j)
  {
    FramesExtend(cap, d, log, i, j);
  }
}
