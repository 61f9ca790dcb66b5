/** The browser's log buffer: live frames and cold-load backfills merged into one
    capped, ordered list, against the list it would keep without a cap. */
module LogStream {
  import opened Options
  import opened Sequences
  import opened LogBuffer

  const MAX_BUFFERED: nat := 2_000

  datatype LogData = LogData(envelopes: seq<Envelope>, lastSeenSeq: int)

  const EMPTY := LogData([], 0)

  // No cap stands for the unbounded list the capped one is measured against.
  function Trim(cap: Option<nat>, s: seq<Envelope>): seq<Envelope> {
    if cap.Some? then Suffix(s, cap.value) else s
  }

  function ReduceLog(cap: Option<nat>, d: LogData, env: Envelope): LogData {
    if env.seqNo <= d.lastSeenSeq then d
    else LogData(Trim(cap, d.envelopes + [env]), env.seqNo)
  }

  predicate Has(s: seq<Envelope>, n: nat) {
    exists i | 0 <= i < |s| :: s[i].seqNo == n
  }

  // The envelopes of `from` whose number is not in `seen`.
  function Unseen(from: seq<Envelope>, seen: seq<Envelope>): (r: seq<Envelope>)
    ensures forall i | 0 <= i < |r| :: !Has(seen, r[i].seqNo) && r[i] in from
  {
    if from == [] then []
    else
      var last := from[|from| - 1];
      var r := Unseen(from[..|from| - 1], seen);
      if Has(seen, last.seqNo) then r else r + [last]
  }

  // A stable sort by number: each element goes behind those not above it.
  function Insert(s: seq<Envelope>, e: Envelope): seq<Envelope> {
    if s == [] || s[|s| - 1].seqNo <= e.seqNo then s + [e]
    else Insert(s[..|s| - 1], e) + [s[|s| - 1]]
  }

  function Sort(s: seq<Envelope>): seq<Envelope> {
    if s == [] then [] else Insert(Sort(s[..|s| - 1]), s[|s| - 1])
  }

  function MaxSeq(low: int, s: seq<Envelope>): int {
    if s == [] then low
    else
      var m := MaxSeq(low, s[..|s| - 1]);
      if s[|s| - 1].seqNo > m then s[|s| - 1].seqNo else m
  }

  function SeedLog(cap: Option<nat>, d: LogData, backfill: seq<Envelope>): LogData {
    var added := Unseen(backfill, d.envelopes);
    if added == [] then d
    else LogData(Trim(cap, Sort(d.envelopes + added)), MaxSeq(d.lastSeenSeq, added))
  }

  datatype ClientEvent = Live(env: Envelope) | Seed(backfill: seq<Envelope>)

  function Take(cap: Option<nat>, d: LogData, e: ClientEvent): LogData {
    match e
    case Live(env) => ReduceLog(cap, d, env)
    case Seed(backfill) => SeedLog(cap, d, backfill)
  }

  function Run(cap: Option<nat>, events: seq<ClientEvent>): LogData {
    if events == [] then EMPTY else Take(cap, Run(cap, events[..|events| - 1]), events[|events| - 1])
  }

  // ---- Sorting ----

  ghost predicate Sorted(s: seq<Envelope>) {
    forall i, j | 0 <= i < j < |s| :: s[i].seqNo <= s[j].seqNo
  }

  function InsertAll(s: seq<Envelope>, added: seq<Envelope>): seq<Envelope> {
    if added == [] then s else Insert(InsertAll(s, added[..|added| - 1]), added[|added| - 1])
  }

  lemma {:induction false} InsertPermutes(s: seq<Envelope>, e: Envelope)
    ensures multiset(Insert(s, e)) == multiset(s) + multiset{e}
  {
    if s != [] && s[|s| - 1].seqNo > e.seqNo {
      InsertPermutes(s[..|s| - 1], e);
      assert s == s[..|s| - 1] + [s[|s| - 1]];
    }
  }

  lemma {:induction false} InsertBounded(s: seq<Envelope>, e: Envelope, bound: int)
    requires e.seqNo <= bound && forall i | 0 <= i < |s| :: s[i].seqNo <= bound
    ensures forall i | 0 <= i < |Insert(s, e)| :: Insert(s, e)[i].seqNo <= bound
  {
    if s != [] && s[|s| - 1].seqNo > e.seqNo {
      InsertBounded(s[..|s| - 1], e, bound);
    }
  }

  lemma {:induction false} InsertSorted(s: seq<Envelope>, e: Envelope)
    requires Sorted(s)
    ensures Sorted(Insert(s, e))
  {
    if s != [] && s[|s| - 1].seqNo > e.seqNo {
      InsertSorted(s[..|s| - 1], e);
      InsertBounded(s[..|s| - 1], e, s[|s| - 1].seqNo);
    }
  }

  lemma {:induction false} InsertAllSorted(s: seq<Envelope>, added: seq<Envelope>)
    requires Sorted(s)
    ensures Sorted(InsertAll(s, added)) && multiset(InsertAll(s, added)) == multiset(s) + multiset(added)
  {
    hide Insert, Sorted;
    if added != [] {
      InsertAllSorted(s, added[..|added| - 1]);
      InsertSorted(InsertAll(s, added[..|added| - 1]), added[|added| - 1]);
      InsertPermutes(InsertAll(s, added[..|added| - 1]), added[|added| - 1]);
      assert added == added[..|added| - 1] + [added[|added| - 1]];
    }
  }

  // Sorting what was already sorted with something new is inserting the new.
  lemma {:induction false} SortMerges(s: seq<Envelope>, added: seq<Envelope>)
    requires Sorted(s)
    ensures Sort(s + added) == InsertAll(s, added)
    decreases |added|
  {
    hide Insert, Sorted;
    if added == [] {
      SortSorted(s);
      assert s + [] == s;
    } else {
      SortMerges(s, added[..|added| - 1]);
      assert (s + added)[..|s + added| - 1] == s + added[..|added| - 1];
    }
  }

  lemma {:induction false} SortSorted(s: seq<Envelope>)
    requires Sorted(s)
    ensures Sort(s) == s
  {
    hide Insert;
    if s != [] {
      var init, last := s[..|s| - 1], s[|s| - 1];
      SortSorted(init);
      InsertAtEnd(init, last);
      assert s == init + [last];
    }
  }

  lemma InsertAtEnd(s: seq<Envelope>, e: Envelope)
    requires s != [] ==> s[|s| - 1].seqNo <= e.seqNo
    ensures Insert(s, e) == s + [e]
  {
  }

  // ---- The cap only ever costs the oldest ----

  lemma SuffixSnoc(s: seq<Envelope>, x: Envelope, n: nat)
    ensures Suffix(s + [x], n) == if n == 0 then [] else Suffix(s, n - 1) + [x]
  {
  }

  lemma SuffixSuffix(s: seq<Envelope>, m: nat, n: nat)
    requires m <= n
    ensures Suffix(Suffix(s, n), m) == Suffix(s, m)
  {
  }

  lemma InsertSnoc(init: seq<Envelope>, last: Envelope, e: Envelope)
    ensures Insert(init + [last], e) == if last.seqNo <= e.seqNo then init + [last] + [e] else Insert(init, e) + [last]
  {
    assert (init + [last])[..|init|] == init;
  }

  // The newest n after an insertion depend only on the newest n before it.
  lemma {:induction false} InsertThenSuffix(s: seq<Envelope>, e: Envelope, n: nat)
    ensures Suffix(Insert(s, e), n) == Suffix(Insert(Suffix(s, n), e), n)
  {
    hide Suffix, Insert;
    if n == 0 || s == [] {
      NoSuffix(Insert(s, e), Insert(Suffix(s, n), e), s, n);
    } else {
      var init, last := s[..|s| - 1], s[|s| - 1];
      assert s == init + [last];
      if last.seqNo <= e.seqNo {
        AppendThenSuffix(init, last, e, n);
      } else {
        InsertThenSuffix(init, e, n - 1);
        InsertedThenSuffix(init, last, e, n);
      }
    }
  }

  lemma AppendThenSuffix(init: seq<Envelope>, last: Envelope, e: Envelope, n: nat)
    requires n > 0 && last.seqNo <= e.seqNo
    ensures var s := init + [last]; Suffix(Insert(s, e), n) == Suffix(Insert(Suffix(s, n), e), n)
  {
    hide Insert;
    var s, t := init + [last], Suffix(init, n - 1);
    SuffixSnoc(init, last, n);
    InsertSnoc(init, last, e);
    InsertSnoc(t, last, e);
    assert Suffix(s + [e], n) == Suffix((t + [last]) + [e], n);
  }

  lemma InsertedThenSuffix(init: seq<Envelope>, last: Envelope, e: Envelope, n: nat)
    requires n > 0 && last.seqNo > e.seqNo
    requires Suffix(Insert(init, e), n - 1) == Suffix(Insert(Suffix(init, n - 1), e), n - 1)
    ensures var s := init + [last]; Suffix(Insert(s, e), n) == Suffix(Insert(Suffix(s, n), e), n)
  {
    hide Insert, Suffix;
    var t := Suffix(init, n - 1);
    SuffixSnoc(init, last, n);
    InsertSnoc(init, last, e);
    InsertSnoc(t, last, e);
    SuffixSnoc(Insert(init, e), last, n);
    SuffixSnoc(Insert(t, e), last, n);
  }

  lemma NoSuffix(a: seq<Envelope>, b: seq<Envelope>, s: seq<Envelope>, n: nat)
    ensures n == 0 ==> Suffix(a, n) == Suffix(b, n)
    ensures s == [] ==> Suffix(s, n) == s
  {
  }

  // Inserting below the newest n leaves them alone.
  lemma {:induction false} InsertBelow(s: seq<Envelope>, e: Envelope, n: nat)
    requires |s| >= n && forall i | |s| - n <= i < |s| :: s[i].seqNo > e.seqNo
    ensures Suffix(Insert(s, e), n) == Suffix(s, n)
  {
    hide Suffix;
    if n > 0 {
      var init, last := s[..|s| - 1], s[|s| - 1];
      assert s == init + [last];
      InsertBelow(init, e, n - 1);
      SuffixSnoc(Insert(init, e), last, n);
      SuffixSnoc(init, last, n);
    } else {
      NoSuffix(Insert(s, e), s, s, n);
    }
  }

  // What the capped buffer c and the unbounded list u have in common.
  ghost predicate Matches(n: nat, c: LogData, u: LogData) {
    && c.lastSeenSeq == u.lastSeenSeq && c.envelopes == Suffix(u.envelopes, n)
    && Sorted(u.envelopes) && forall i | 0 <= i < |u.envelopes| :: u.envelopes[i].seqNo <= u.lastSeenSeq
  }

  lemma LiveMatches(n: nat, c: LogData, u: LogData, env: Envelope)
    requires Matches(n, c, u)
    ensures Matches(n, ReduceLog(Some(n), c, env), ReduceLog(None, u, env))
  {
    hide Suffix;
    if env.seqNo > u.lastSeenSeq {
      SuffixThenSnoc(u.envelopes, env, n);
    }
  }

  lemma SuffixThenSnoc(s: seq<Envelope>, e: Envelope, n: nat)
    ensures Suffix(Suffix(s, n) + [e], n) == Suffix(s + [e], n)
  {
    hide Suffix;
    SuffixSnoc(s, e, n);
    SuffixSnoc(Suffix(s, n), e, n);
    if n > 0 {
      SuffixSuffix(s, n - 1, n);
    }
  }

  ghost predicate Above(s: seq<Envelope>, n: nat, low: int) {
    |s| >= n && forall i | |s| - n <= i < |s| :: s[i].seqNo >= low
  }

  lemma {:induction false} InsertKeepsAbove(s: seq<Envelope>, e: Envelope, n: nat, low: int)
    requires Above(s, n, low)
    ensures Above(Insert(s, e), n, low)
  {
    if n > 0 && s[|s| - 1].seqNo > e.seqNo {
      InsertKeepsAbove(s[..|s| - 1], e, n - 1, low);
    } else if s != [] && s[|s| - 1].seqNo > e.seqNo {
      InsertKeepsAbove(s[..|s| - 1], e, 0, low);
    }
  }

  lemma SuffixHas(u: seq<Envelope>, n: nat, j: nat)
    requires |u| - |Suffix(u, n)| <= j < |u|
    ensures Has(Suffix(u, n), u[j].seqNo)
  {
    assert Suffix(u, n)[j - (|u| - |Suffix(u, n)|)] == u[j];
  }

  // A number the unbounded list has and the capped one has dropped is below
  // everything the capped one holds.
  lemma DroppedIsBelow(u: seq<Envelope>, n: nat, number: nat)
    requires Sorted(u) && Has(u, number) && !Has(Suffix(u, n), number) && n > 0
    ensures |u| > n && number < u[|u| - n].seqNo
  {
    var j :| 0 <= j < |u| && u[j].seqNo == number;
    var c := Suffix(u, n);
    forall i | |u| - |c| <= i < |u| ensures Has(c, u[i].seqNo) {
      SuffixHas(u, n, i);
    }
    assert c[0] == u[|u| - |c|];
    assert c[0].seqNo != number;
  }

  lemma HasSuffix(u: seq<Envelope>, n: nat, number: nat)
    requires Has(Suffix(u, n), number)
    ensures Has(u, number)
  {
    var c := Suffix(u, n);
    var i :| 0 <= i < |c| && c[i].seqNo == number;
    assert u[|u| - |c| + i].seqNo == number;
  }

  lemma {:induction false} StaysAbove(c: seq<Envelope>, added: seq<Envelope>, n: nat, low: int)
    requires Above(c, n, low)
    ensures Above(InsertAll(c, added), n, low)
  {
    hide Above;
    if added != [] {
      StaysAbove(c, added[..|added| - 1], n, low);
      InsertKeepsAbove(InsertAll(c, added[..|added| - 1]), added[|added| - 1], n, low);
    }
  }

  // A backfilled envelope that the capped buffer has already dropped goes back in
  // below everything it still holds.
  lemma {:induction false} AddedMatch(n: nat, u: seq<Envelope>, backfill: seq<Envelope>)
    requires Sorted(u) && n > 0
    ensures
      var c := Suffix(u, n);
      Suffix(InsertAll(c, Unseen(backfill, c)), n) == Suffix(InsertAll(u, Unseen(backfill, u)), n)
  {
    hide Insert, Has, Suffix, Above;
    var c := Suffix(u, n);
    if backfill == [] {
      SuffixSuffix(u, n, n);
    } else {
      var earlier, e := backfill[..|backfill| - 1], backfill[|backfill| - 1];
      AddedMatch(n, u, earlier);
      var ca, ua := Unseen(earlier, c), Unseen(earlier, u);
      assert (ca + [e])[..|ca|] == ca && (ua + [e])[..|ua|] == ua;
      var cm, um := InsertAll(c, ca), InsertAll(u, ua);
      if Has(c, e.seqNo) {
        HasSuffix(u, n, e.seqNo);
      } else if Has(u, e.seqNo) {
        DroppedIsBelow(u, n, e.seqNo);
        SuffixIsAbove(u, n);
        StaysAbove(c, ca, n, u[|u| - n].seqNo);
        AboveIsBelow(cm, e, n, u[|u| - n].seqNo);
      } else {
        InsertThenSuffix(cm, e, n);
        InsertThenSuffix(um, e, n);
      }
    }
  }

  lemma SuffixIsAbove(u: seq<Envelope>, n: nat)
    requires Sorted(u) && 0 < n < |u|
    ensures Above(Suffix(u, n), n, u[|u| - n].seqNo)
  {
  }

  lemma AboveIsBelow(s: seq<Envelope>, e: Envelope, n: nat, low: int)
    requires Above(s, n, low) && e.seqNo < low
    ensures Suffix(Insert(s, e), n) == Suffix(s, n)
  {
    InsertBelow(s, e, n);
  }

  // ---- Any run: the capped buffer is the newest end of the unbounded list ----

  lemma {:induction false} SameMax(n: nat, u: seq<Envelope>, backfill: seq<Envelope>, low: int)
    requires forall i | 0 <= i < |u| :: u[i].seqNo <= low
    ensures MaxSeq(low, Unseen(backfill, Suffix(u, n))) == MaxSeq(low, Unseen(backfill, u)) >= low
    ensures Unseen(backfill, Suffix(u, n)) == [] ==> Unseen(backfill, u) == []
  {
    hide Suffix, Has;
    if backfill != [] {
      var c, earlier, e := Suffix(u, n), backfill[..|backfill| - 1], backfill[|backfill| - 1];
      SameMax(n, u, earlier, low);
      var ca, ua := Unseen(earlier, c), Unseen(earlier, u);
      assert (ca + [e])[..|ca|] == ca && (ua + [e])[..|ua|] == ua;
      if Has(c, e.seqNo) {
        HasSuffix(u, n, e.seqNo);
      } else if Has(u, e.seqNo) {
        HasIsBounded(u, e.seqNo, low);
      }
    }
  }

  lemma HasIsBounded(u: seq<Envelope>, number: nat, low: int)
    requires Has(u, number) && forall i | 0 <= i < |u| :: u[i].seqNo <= low
    ensures number <= low
  {
  }

  lemma {:induction false} MaxBounds(low: int, s: seq<Envelope>)
    ensures MaxSeq(low, s) >= low && forall i | 0 <= i < |s| :: s[i].seqNo <= MaxSeq(low, s)
  {
    if s != [] {
      MaxBounds(low, s[..|s| - 1]);
    }
  }

  lemma {:induction false} InsertAllBounded(s: seq<Envelope>, added: seq<Envelope>, bound: int)
    requires forall i | 0 <= i < |s| :: s[i].seqNo <= bound
    requires forall i | 0 <= i < |added| :: added[i].seqNo <= bound
    ensures forall i | 0 <= i < |InsertAll(s, added)| :: InsertAll(s, added)[i].seqNo <= bound
  {
    if added != [] {
      InsertAllBounded(s, added[..|added| - 1], bound);
      InsertBounded(InsertAll(s, added[..|added| - 1]), added[|added| - 1], bound);
    }
  }

  lemma SortedSuffix(u: seq<Envelope>, n: nat)
    requires Sorted(u)
    ensures Sorted(Suffix(u, n))
  {
  }

  lemma SeedMatches(n: nat, c: LogData, u: LogData, backfill: seq<Envelope>)
    requires Matches(n, c, u) && n > 0
    ensures Matches(n, SeedLog(Some(n), c, backfill), SeedLog(None, u, backfill))
  {
    hide Suffix, Unseen, Sort, InsertAll, MaxSeq, Sorted;
    var ca, ua := Unseen(backfill, c.envelopes), Unseen(backfill, u.envelopes);
    SameMax(n, u.envelopes, backfill, u.lastSeenSeq);
    AddedMatch(n, u.envelopes, backfill);
    SortedSuffix(u.envelopes, n);
    SortMerges(c.envelopes, ca);
    SortMerges(u.envelopes, ua);
    InsertAllSorted(u.envelopes, ua);
    MaxBounds(u.lastSeenSeq, ua);
    InsertAllBounded(u.envelopes, ua, MaxSeq(u.lastSeenSeq, ua));
    NoneAdded(u.envelopes, u.lastSeenSeq);
  }

  lemma NoneAdded(s: seq<Envelope>, low: int)
    ensures InsertAll(s, []) == s && MaxSeq(low, []) == low
  {
  }

  // Under any mix of live frames and backfills the buffer holds exactly the newest
  // 2000 of all it has ever accepted, in order, and lastSeenSeq bounds them.
  lemma {:induction false} BufferIsNewest(events: seq<ClientEvent>)
    ensures Matches(MAX_BUFFERED, Run(Some(MAX_BUFFERED), events), Run(None, events))
  {
    hide ReduceLog, SeedLog, Matches;
    if events == [] {
      EmptyMatches(MAX_BUFFERED);
    } else {
      var earlier := events[..|events| - 1];
      BufferIsNewest(earlier);
      match events[|events| - 1]
      case Live(env) => LiveMatches(MAX_BUFFERED, Run(Some(MAX_BUFFERED), earlier), Run(None, earlier), env);
      case Seed(backfill) => SeedMatches(MAX_BUFFERED, Run(Some(MAX_BUFFERED), earlier), Run(None, earlier), backfill);
    }
  }

  lemma EmptyMatches(n: nat)
    ensures Matches(n, EMPTY, EMPTY)
  {
  }

  // ---- No number twice ----

  ghost predicate Ascending(s: seq<Envelope>) {
    forall i, j | 0 <= i < j < |s| :: s[i].seqNo < s[j].seqNo
  }

  ghost predicate DistinctNumbers(s: seq<Envelope>) {
    forall i, j | 0 <= i < j < |s| :: s[i].seqNo != s[j].seqNo
  }

  function Count(s: seq<Envelope>, k: nat): nat {
    if s == [] then 0 else Count(s[..|s| - 1], k) + if s[|s| - 1].seqNo == k then 1 else 0
  }

  lemma {:induction false} InsertCounts(s: seq<Envelope>, e: Envelope, k: nat)
    ensures Count(Insert(s, e), k) == Count(s, k) + if e.seqNo == k then 1 else 0
  {
    if s == [] || s[|s| - 1].seqNo <= e.seqNo {
      assert (s + [e])[..|s|] == s;
    } else {
      InsertCounts(s[..|s| - 1], e, k);
      assert Insert(s, e)[..|Insert(s[..|s| - 1], e)|] == Insert(s[..|s| - 1], e);
    }
  }

  lemma {:induction false} InsertAllCounts(s: seq<Envelope>, added: seq<Envelope>, k: nat)
    ensures Count(InsertAll(s, added), k) == Count(s, k) + Count(added, k)
  {
    if added != [] {
      InsertAllCounts(s, added[..|added| - 1], k);
      InsertCounts(InsertAll(s, added[..|added| - 1]), added[|added| - 1], k);
    }
  }

  lemma {:induction false} CountHas(s: seq<Envelope>, k: nat)
    ensures Count(s, k) > 0 <==> Has(s, k)
  {
    if s != [] {
      CountHas(s[..|s| - 1], k);
      if Has(s, k) && s[|s| - 1].seqNo != k {
        var i :| 0 <= i < |s| && s[i].seqNo == k;
        assert s[..|s| - 1][i].seqNo == k;
      }
      if Has(s[..|s| - 1], k) {
        var i :| 0 <= i < |s| - 1 && s[..|s| - 1][i].seqNo == k;
        assert s[i].seqNo == k;
      }
    }
  }

  lemma {:induction false} DistinctMeansOnce(s: seq<Envelope>, k: nat)
    requires DistinctNumbers(s)
    ensures Count(s, k) <= 1
  {
    if s != [] {
      var init, last := s[..|s| - 1], s[|s| - 1];
      forall i, j | 0 <= i < j < |init| ensures init[i].seqNo != init[j].seqNo {
        assert s[i] == init[i] && s[j] == init[j];
      }
      DistinctMeansOnce(init, k);
      CountHas(init, last.seqNo);
      forall i | 0 <= i < |init| ensures init[i].seqNo != last.seqNo {
        assert s[i] == init[i];
      }
      assert !Has(init, last.seqNo);
    }
  }

  ghost predicate Once(s: seq<Envelope>) {
    forall k: nat :: Count(s, k) <= 1
  }

  lemma {:induction false} OnceMeansDistinct(s: seq<Envelope>)
    requires Once(s)
    ensures DistinctNumbers(s)
  {
    if s != [] {
      var init, last := s[..|s| - 1], s[|s| - 1];
      forall k: nat ensures Count(init, k) <= 1 {
        assert Count(s, k) <= 1;
      }
      OnceMeansDistinct(init);
      assert Count(s, last.seqNo) == Count(init, last.seqNo) + 1;
      CountHas(init, last.seqNo);
      forall i | 0 <= i < |init| ensures s[i].seqNo != last.seqNo {
        assert init[i] == s[i];
      }
      forall i, j | 0 <= i < j < |s| ensures s[i].seqNo != s[j].seqNo {
        assert init[i] == s[i] && (j < |init| ==> init[j] == s[j]);
      }
    }
  }

  lemma DistinctCounts(s: seq<Envelope>)
    ensures DistinctNumbers(s) <==> Once(s)
  {
    if DistinctNumbers(s) {
      forall k: nat ensures Count(s, k) <= 1 {
        DistinctMeansOnce(s, k);
      }
    }
    if Once(s) {
      OnceMeansDistinct(s);
    }
  }

  lemma AscendingIsDistinct(s: seq<Envelope>)
    requires Sorted(s)
    ensures Ascending(s) <==> DistinctNumbers(s)
  {
    if DistinctNumbers(s) {
      forall i, j | 0 <= i < j < |s| ensures s[i].seqNo < s[j].seqNo {
        assert s[i].seqNo != s[j].seqNo;
      }
    }
  }

  // A backfill keeps the list free of duplicates exactly when the envelopes it adds
  // carry different numbers: nothing compares them with one another.
  lemma SeedAscendingIff(u: seq<Envelope>, backfill: seq<Envelope>)
    requires Ascending(u)
    ensures Ascending(Sort(u + Unseen(backfill, u))) <==> DistinctNumbers(Unseen(backfill, u))
  {
    hide Sort, Unseen, Insert, InsertAll, Count, Has;
    var added := Unseen(backfill, u);
    var merged := InsertAll(u, added);
    SortMerges(u, added);
    InsertAllSorted(u, added);
    AscendingIsDistinct(u);
    AscendingIsDistinct(merged);
    DistinctCounts(u);
    DistinctCounts(added);
    DistinctCounts(merged);
    if DistinctNumbers(added) {
      forall k: nat ensures Count(merged, k) <= 1 {
        MergeCounts(u, backfill, k);
      }
    }
    if DistinctNumbers(merged) {
      forall k: nat ensures Count(added, k) <= 1 {
        MergeCounts(u, backfill, k);
      }
    }
  }

  lemma MergeCounts(u: seq<Envelope>, backfill: seq<Envelope>, k: nat)
    ensures
      var added := Unseen(backfill, u);
      && Count(InsertAll(u, added), k) == Count(u, k) + Count(added, k)
      && (Count(added, k) > 0 ==> Count(u, k) == 0)
  {
    hide InsertAll, Unseen, Has, Count;
    var added := Unseen(backfill, u);
    InsertAllCounts(u, added, k);
    CountHas(added, k);
    CountHas(u, k);
    if Count(added, k) > 0 {
      AddedIsUnseen(backfill, u, k);
    }
  }

  lemma AddedIsUnseen(backfill: seq<Envelope>, u: seq<Envelope>, k: nat)
    requires Has(Unseen(backfill, u), k)
    ensures !Has(u, k)
  {
    var i :| 0 <= i < |Unseen(backfill, u)| && Unseen(backfill, u)[i].seqNo == k;
  }

  lemma {:induction false} UnseenCounts(backfill: seq<Envelope>, seen: seq<Envelope>, k: nat)
    ensures Count(Unseen(backfill, seen), k) <= Count(backfill, k)
  {
    if backfill != [] {
      var r := Unseen(backfill[..|backfill| - 1], seen);
      UnseenCounts(backfill[..|backfill| - 1], seen, k);
      assert (r + [backfill[|backfill| - 1]])[..|r|] == r;
    }
  }

  lemma SeedAscending(u: seq<Envelope>, backfill: seq<Envelope>)
    requires Ascending(u) && DistinctNumbers(backfill)
    ensures Ascending(Sort(u + Unseen(backfill, u)))
  {
    hide Sort, Unseen, Count;
    DistinctCounts(backfill);
    DistinctCounts(Unseen(backfill, u));
    forall k: nat ensures Count(Unseen(backfill, u), k) <= 1 {
      UnseenCounts(backfill, u, k);
    }
    assert DistinctNumbers(Unseen(backfill, u));
    SeedAscendingIff(u, backfill);
  }

  // When every backfill lists each number once, as the ring's own answers do, the
  // buffer is strictly ascending at all times.
  lemma {:induction false} BufferAscending(events: seq<ClientEvent>)
    requires forall i | 0 <= i < |events| && events[i].Seed? :: DistinctNumbers(events[i].backfill)
    ensures Ascending(Run(None, events).envelopes)
    ensures Ascending(Run(Some(MAX_BUFFERED), events).envelopes)
  {
    hide Sort, Unseen, Sorted;
    BufferIsNewest(events);
    if events != [] {
      var earlier := events[..|events| - 1];
      BufferAscending(earlier);
      BufferIsNewest(earlier);
      match events[|events| - 1]
      case Live(env) =>
      case Seed(backfill) => SeedAscending(Run(None, earlier).envelopes, backfill);
    }
  }
}
