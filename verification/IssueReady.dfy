/** The ready-work view over open issues: the scanner for "Blocked by" declarations and
    the filter built on it. Case folding, digits and word characters are ASCII. */
module IssueReady {
  import opened Options
  import opened Text

  // ---- Scanning ----

  predicate Blank(c: char) {
    c == ' ' || c == '\t'
  }

  // Nothing but spaces and tabs.
  predicate AllBlank(s: string) {
    forall i | 0 <= i < |s| :: s[i] == ' ' || s[i] == '\t'
  }

  function SkipBlanks(s: string, pos: nat): (end: nat)
    requires pos <= |s|
    ensures pos <= end <= |s|
    ensures forall i | pos <= i < end :: Blank(s[i])
    ensures end < |s| ==> !Blank(s[end])
    decreases |s| - pos
  {
    if pos < |s| && Blank(s[pos]) then SkipBlanks(s, pos + 1) else pos
  }

  function SkipDigits(s: string, pos: nat): (end: nat)
    requires pos <= |s|
    ensures pos <= end <= |s|
    ensures forall i | pos <= i < end :: IsDigit(s[i])
    ensures end < |s| ==> !IsDigit(s[end])
    decreases |s| - pos
  {
    if pos < |s| && IsDigit(s[pos]) then SkipDigits(s, pos + 1) else pos
  }

  datatype Ref = Ref(number: nat, end: nat)

  // Blanks, '#' and as many digits as follow.
  function LeadingRef(s: string, pos: nat): (r: Option<Ref>)
    requires pos <= |s|
    ensures r.Some? ==> pos < r.value.end <= |s|
  {
    var hash := SkipBlanks(s, pos);
    if hash == |s| || s[hash] != '#' then None
    else
      var end := SkipDigits(s, hash + 1);
      if end == hash + 1 then None else Some(Ref(NumberOf(s[hash + 1..end]), end))
  }

  predicate IsPunctuation(c: char) {
    c == ',' || c == ';' || c == '/' || c == '&' || c == '+'
  }

  predicate WordChar(c: char) {
    IsDigit(c) || 'a' <= c <= 'z' || 'A' <= c <= 'Z' || c == '_'
  }

  predicate AndAt(s: string, pos: nat) {
    && pos + 3 <= |s| && s[pos] == 'a' && s[pos + 1] == 'n' && s[pos + 2] == 'd'
    && (pos + 3 < |s| ==> !WordChar(s[pos + 3]))
  }

  function Separator(s: string, pos: nat): (r: Option<nat>)
    requires pos <= |s|
    ensures r.Some? ==> pos < r.value <= |s|
  {
    var at := SkipBlanks(s, pos);
    if at < |s| && IsPunctuation(s[at]) then Some(SkipBlanks(s, at + 1))
    else if AndAt(s, at) then Some(SkipBlanks(s, at + 3))
    else None
  }

  // Blanks alone continue the list only when a reference follows.
  function Gap(s: string, pos: nat): (r: Option<nat>)
    requires pos <= |s|
    ensures r.Some? ==> pos < r.value <= |s|
  {
    var at := SkipBlanks(s, pos);
    if pos < at && at + 1 < |s| && s[at] == '#' && IsDigit(s[at + 1]) then Some(at) else None
  }

  function Continuation(s: string, pos: nat): (r: Option<nat>)
    requires pos <= |s|
    ensures r.Some? ==> pos < r.value <= |s|
  {
    if Separator(s, pos).Some? then Separator(s, pos) else Gap(s, pos)
  }

  function RefsFrom(s: string, pos: nat): set<nat>
    requires pos <= |s|
    decreases |s| - pos
  {
    match LeadingRef(s, pos)
    case None => {}
    case Some(ref) =>
      {ref.number} + (match Continuation(s, ref.end) case None => {} case Some(next) => RefsFrom(s, next))
  }

  method PrefixRefs(tail: string) returns (refs: set<nat>)
    ensures refs == RefsFrom(tail, 0)
  {
    refs := {};
    var pos := 0;
    while true
      invariant 0 <= pos <= |tail|
      invariant refs + RefsFrom(tail, pos) == RefsFrom(tail, 0)
      decreases |tail| - pos
    {
      var m := LeadingRef(tail, pos);
      if m.None? {
        return;
      }
      refs := refs + {m.value.number};
      var step := Continuation(tail, m.value.end);
      if step.None? {
        return;
      }
      pos := step.value;
    }
  }

  // ---- Printing a list and reading it back ----

  // What may stand between two references: blanks around a mark, or blanks alone.
  datatype Joint = Joint(before: string, mark: string, after: string)

  predicate Accepted(j: Joint) {
    && AllBlank(j.before) && AllBlank(j.after)
    && (if j.mark == "" then j.before != "" && j.after == ""
        else j.mark in {",", ";", "/", "&", "+", "and"})
  }

  function Printed(first: nat, rest: seq<(Joint, nat)>): string
    decreases |rest|
  {
    "#" + Digits(first)
    + (if rest == [] then ""
       else rest[0].0.before + rest[0].0.mark + rest[0].0.after + Printed(rest[0].1, rest[1..]))
  }

  function Numbers(first: nat, rest: seq<(Joint, nat)>): set<nat>
    decreases |rest|
  {
    {first} + (if rest == [] then {} else Numbers(rest[0].1, rest[1..]))
  }

  // Text that does not carry a list on: no digit at once, and no separator followed by
  // another reference.
  predicate Stops(s: string, pos: nat)
    requires pos <= |s|
  {
    && (pos < |s| ==> !IsDigit(s[pos]))
    && (match Continuation(s, pos) case None => true case Some(next) => LeadingRef(s, next).None?)
  }

  // The two patterns a list is scanned with, and the marks between, character by character.
  predicate Spaces(s: string, a: nat, b: nat) {
    a <= b <= |s| && forall i | a <= i < b :: s[i] == ' ' || s[i] == '\t'
  }

  predicate SpacesTo(s: string, a: nat, b: nat) {
    Spaces(s, a, b) && (b < |s| ==> s[b] != ' ' && s[b] != '\t')
  }

  predicate RefAt(s: string, pos: nat, hash: nat, ref: Ref) {
    && Spaces(s, pos, hash) && hash + 1 < ref.end <= |s| && s[hash] == '#'
    && (forall i | hash < i < ref.end :: '0' <= s[i] <= '9')
    && (ref.end < |s| ==> !('0' <= s[ref.end] <= '9'))
    && ref.number == NumberOf(s[hash + 1..ref.end])
  }

  lemma LeadingRefIff(s: string, pos: nat, ref: Ref)
    requires pos <= |s|
    ensures LeadingRef(s, pos) == Some(ref) <==> exists hash: nat :: RefAt(s, pos, hash, ref)
  {
    hide SkipBlanks, SkipDigits, NumberOf;
    var h := SkipBlanks(s, pos);
    if LeadingRef(s, pos) == Some(ref) {
      assert RefAt(s, pos, h, ref);
    }
    if hash: nat :| RefAt(s, pos, hash, ref) {
      assert h == hash;
      assert SkipDigits(s, hash + 1) == ref.end;
    }
  }

  predicate JointAt(s: string, pos: nat, at: nat, next: nat) {
    && Spaces(s, pos, at) && at < |s|
    && (|| (s[at] in {',', ';', '/', '&', '+'} && SpacesTo(s, at + 1, next))
        || (AndWord(s, at) && SpacesTo(s, at + 3, next))
        || (pos < at == next && s[at] == '#' && at + 1 < |s| && '0' <= s[at + 1] <= '9'))
  }

  // "and", and not the beginning of a longer word.
  predicate AndWord(s: string, at: nat) {
    && at + 3 <= |s| && s[at..at + 3] == "and"
    && (at + 3 < |s| ==>
          var c := s[at + 3];
          c != '_' && !('0' <= c <= '9') && !('a' <= c <= 'z') && !('A' <= c <= 'Z'))
  }

  lemma AndIsWord(s: string, at: nat)
    ensures AndAt(s, at) <==> AndWord(s, at)
  {
    if at + 3 <= |s| {
      assert s[at..at + 3] == [s[at], s[at + 1], s[at + 2]];
    }
  }

  lemma ContinuationIff(s: string, pos: nat, next: nat)
    requires pos <= |s|
    ensures Continuation(s, pos) == Some(next) <==> exists at: nat :: JointAt(s, pos, at, next)
  {
    hide SkipBlanks, AndAt, AndWord;
    var a := SkipBlanks(s, pos);
    AndIsWord(s, a);
    if Continuation(s, pos) == Some(next) {
      AndFitsThere(s, a);
      assert JointAt(s, pos, a, next);
    }
    if at: nat :| JointAt(s, pos, at, next) {
      AndBegins(s, at);
      assert a == at;
      JointIsRead(s, pos, at, next);
    }
  }

  lemma AndFitsThere(s: string, at: nat)
    ensures AndAt(s, at) ==> at + 3 <= |s|
  {
  }

  lemma AndBegins(s: string, at: nat)
    ensures AndWord(s, at) ==> at + 3 <= |s| && s[at] == 'a'
  {
    assert at + 3 <= |s| ==> s[at..at + 3][0] == s[at];
  }

  lemma JointIsRead(s: string, pos: nat, at: nat, next: nat)
    requires pos <= |s| && JointAt(s, pos, at, next) && SkipBlanks(s, pos) == at
    ensures Continuation(s, pos) == Some(next)
  {
    hide SkipBlanks, AndAt, AndWord;
    AndIsWord(s, at);
    AndBegins(s, at);
    AndFitsThere(s, at);
    if IsPunctuation(s[at]) {
      assert SkipBlanks(s, at + 1) == next;
    } else if AndWord(s, at) {
      assert SkipBlanks(s, at + 3) == next;
    }
  }

  // The scanner looks only ahead.
  lemma StopsAnywhere(before: string, after: string)
    requires Stops(after, 0)
    ensures Stops(before + after, |before|)
  {
    hide Continuation, LeadingRef;
    ContinuationShift(before, after);
    match Continuation(after, 0) {
      case None =>
      case Some(next) => RefShift(before, after, next);
    }
  }

  lemma SkipBlanksShift(before: string, after: string, pos: nat)
    requires pos <= |after|
    ensures SkipBlanks(before + after, |before| + pos) == |before| + SkipBlanks(after, pos)
  {
    hide SkipBlanks;
    var s, k := before + after, |before|;
    var f := SkipBlanks(after, pos);
    assert forall i | k + pos <= i < k + f :: s[i] == after[i - k];
    assert k + f < |s| ==> s[k + f] == after[f];
  }

  lemma SkipDigitsShift(before: string, after: string, pos: nat)
    requires pos <= |after|
    ensures SkipDigits(before + after, |before| + pos) == |before| + SkipDigits(after, pos)
  {
    hide SkipDigits;
    var s, k := before + after, |before|;
    var f := SkipDigits(after, pos);
    assert forall i | k + pos <= i < k + f :: s[i] == after[i - k];
    assert k + f < |s| ==> s[k + f] == after[f];
  }

  lemma AndShift(before: string, after: string, pos: nat)
    requires pos <= |after|
    ensures AndAt(before + after, |before| + pos) == AndAt(after, pos)
  {
    var s, k := before + after, |before| + pos;
    if pos + 3 <= |after| {
      assert s[k] == after[pos] && s[k + 1] == after[pos + 1] && s[k + 2] == after[pos + 2];
      assert pos + 3 < |after| ==> s[k + 3] == after[pos + 3];
    }
  }

  lemma ContinuationShift(before: string, after: string)
    ensures var r := Continuation(after, 0);
      Continuation(before + after, |before|) == if r.Some? then Some(|before| + r.value) else None
  {
    hide SkipBlanks, AndAt;
    var at := SkipBlanks(after, 0);
    SkipBlanksShift(before, after, 0);
    AndShift(before, after, at);
    if at < |after| {
      SkipBlanksShift(before, after, at + 1);
    }
    if AndAt(after, at) {
      AndFits(after, at);
      SkipBlanksShift(before, after, at + 3);
    }
  }

  lemma AndFits(s: string, pos: nat)
    requires AndAt(s, pos)
    ensures pos + 3 <= |s|
  {
  }

  lemma RefShift(before: string, after: string, pos: nat)
    requires pos <= |after| && LeadingRef(after, pos).None?
    ensures LeadingRef(before + after, |before| + pos).None?
  {
    hide SkipBlanks, SkipDigits;
    var hash := SkipBlanks(after, pos);
    SkipBlanksShift(before, after, pos);
    if hash < |after| {
      SkipDigitsShift(before, after, hash + 1);
    }
  }

  // Reading one printed reference.
  lemma ReadsOne(before: string, lead: string, n: nat, tail: string)
    requires AllBlank(lead) && (tail != "" ==> !IsDigit(tail[0]))
    ensures LeadingRef(before + lead + "#" + Digits(n) + tail, |before|)
      == Some(Ref(n, |before| + |lead| + 1 + |Digits(n)|))
  {
    hide Digits, SkipBlanks, SkipDigits, NumberOf;
    DigitsRoundTrip(n);
    var d := Digits(n);
    var s := before + lead + "#" + d + tail;
    var hash := |before| + |lead|;
    var end := hash + 1 + |d|;
    assert forall i | |before| <= i < hash :: s[i] == lead[i - |before|];
    assert s[hash] == '#';
    assert s[hash + 1..end] == d;
    assert forall i | hash + 1 <= i < end :: s[i] == d[i - (hash + 1)];
    assert end < |s| ==> s[end] == tail[0];
  }

  // Reading what joins two references.
  lemma ReadsJoint(before: string, j: Joint, tail: string)
    requires Accepted(j) && |tail| >= 2 && tail[0] == '#' && IsDigit(tail[1])
    ensures var s := before + (j.before + j.mark + j.after + tail);
      && Continuation(s, |before|) == Some(|s| - |tail|)
      && !IsDigit(s[|before|])
  {
    hide SkipBlanks;
    var s := before + (j.before + j.mark + j.after + tail);
    var at, mid := |before| + |j.before|, |before| + |j.before| + |j.mark|;
    var end := mid + |j.after|;
    assert forall i | |before| <= i < at :: s[i] == j.before[i - |before|];
    assert forall i | at <= i < mid :: s[i] == j.mark[i - at];
    assert forall i | mid <= i < end :: s[i] == j.after[i - mid];
    assert s[end] == '#' && s[end + 1] == tail[1];
    assert SkipBlanks(s, mid) == end;
    if j.mark == "" {
      assert SkipBlanks(s, |before|) == end;
    } else {
      assert s[at] == j.mark[0];
      assert SkipBlanks(s, |before|) == at;
    }
    if j.mark == "and" {
      assert s[at + 1] == j.mark[1] && s[at + 2] == j.mark[2];
      assert end == mid || s[mid] == j.after[0];
    }
  }

  lemma PrintedStarts(first: nat, rest: seq<(Joint, nat)>)
    ensures var p := Printed(first, rest); |p| >= 2 && p[0] == '#' && IsDigit(p[1])
  {
    DigitsRoundTrip(first);
  }

  // The scanner undoes printing: a list of references in any accepted joints, followed by
  // text that does not carry it on, is read as exactly those numbers.
  lemma {:induction false} PrintedListIsRead(
      before: string, lead: string, first: nat, rest: seq<(Joint, nat)>, after: string)
    requires AllBlank(lead) && (forall i | 0 <= i < |rest| :: Accepted(rest[i].0)) && Stops(after, 0)
    ensures RefsFrom(before + lead + Printed(first, rest) + after, |before|) == Numbers(first, rest)
    decreases |rest|
  {
    hide LeadingRef, Continuation, Accepted, Digits, Stops, IsDigit;
    var s := before + lead + Printed(first, rest) + after;
    var read := before + lead + "#" + Digits(first);
    if rest == [] {
      assert s == read + after;
      StopsFirst(after);
      ReadsOne(before, lead, first, after);
      StopsAnywhere(read, after);
      StopsThere(s, |read|);
    } else {
      var j := rest[0].0;
      var p := Printed(rest[0].1, rest[1..]);
      var joint := j.before + j.mark + j.after;
      PrintedStarts(rest[0].1, rest[1..]);
      assert s == read + (joint + (p + after));
      ReadsJoint(read, j, p + after);
      assert s[|read|] == (joint + (p + after))[0];
      ReadsOne(before, lead, first, joint + (p + after));
      assert s == (read + joint) + "" + p + after;
      PrintedListIsRead(read + joint, "", rest[0].1, rest[1..], after);
    }
  }

  lemma StopsFirst(s: string)
    requires Stops(s, 0)
    ensures s != "" ==> !IsDigit(s[0])
  {
  }

  lemma StopsThere(s: string, pos: nat)
    requires pos <= |s| && Stops(s, pos)
    ensures Continuation(s, pos).Some? ==> LeadingRef(s, Continuation(s, pos).value).None?
  {
  }

  // ---- The declaration line ----

  const MARKER := "blocked by"

  function Lower(c: char): char {
    if 'A' <= c <= 'Z' then c + ' ' else c
  }

  predicate MarkerAt(s: string, pos: nat) {
    pos + |MARKER| <= |s| && forall i | 0 <= i < |MARKER| :: Lower(s[pos + i]) == MARKER[i]
  }

  function AfterBullet(s: string, pos: nat): (r: nat)
    requires pos <= |s|
    ensures pos <= r <= |s|
  {
    if pos + 1 < |s| && (s[pos] == '-' || s[pos] == '*' || s[pos] == '+') && Blank(s[pos + 1]) then
      SkipBlanks(s, pos + 1)
    else
      var d := SkipDigits(s, pos);
      if pos < d && d + 1 < |s| && (s[d] == '.' || s[d] == ')') && Blank(s[d + 1]) then SkipBlanks(s, d + 1)
      else pos
  }

  predicate BoldAt(s: string, pos: nat) {
    pos + 2 <= |s| && s[pos] == s[pos + 1] && (s[pos] == '*' || s[pos] == '_')
  }

  function AfterBold(s: string, pos: nat): (r: nat)
    requires pos <= |s|
    ensures pos <= r <= |s|
  {
    if BoldAt(s, pos) then pos + 2 else pos
  }

  function AfterColon(s: string, pos: nat): (r: nat)
    requires pos <= |s|
    ensures pos <= r <= |s|
  {
    var c := SkipBlanks(s, pos);
    SkipBlanks(s, if c < |s| && s[c] == ':' then c + 1 else c)
  }

  function MarkerStart(s: string): (r: nat)
    ensures r <= |s|
  {
    var indent := SkipBlanks(s, 0);
    if indent > 3 then indent else SkipBlanks(s, AfterBold(s, AfterBullet(s, indent)))
  }

  // Where the text after a declaration's opening starts, if the line is one.
  function TailStart(s: string): (r: Option<nat>)
    ensures r.Some? ==> r.value <= |s|
  {
    var m := MarkerStart(s);
    if !MarkerAt(s, m) then None
    else Some(AfterBold(s, AfterColon(s, m + |MARKER|)))
  }

  function DeclaredRefs(line: string): set<nat> {
    match TailStart(line)
    case None => {}
    case Some(t) => RefsFrom(line[t..], 0)
  }

  // The same opening as the pattern states it: some way to divide the line's start.
  ghost predicate NumberedAt(s: string, a: nat, d: nat, b: nat)
    requires a <= b <= |s|
  {
    && a < d && d + 1 < b && (forall i | a <= i < d :: '0' <= s[i] <= '9')
    && (s[d] == '.' || s[d] == ')') && Spaces(s, d + 1, b)
  }

  ghost predicate BulletBetween(s: string, a: nat, b: nat)
    requires a <= b <= |s|
  {
    || a == b
    || (a + 1 < b && (s[a] == '-' || s[a] == '*' || s[a] == '+') && Spaces(s, a + 1, b))
    || exists d: nat :: NumberedAt(s, a, d, b)
  }

  ghost predicate OpeningAt(s: string, a: nat, b: nat, c: nat, m: nat) {
    && a <= b <= c <= m <= |s| && a <= 3
    && Spaces(s, 0, a) && BulletBetween(s, a, b)
    && (b == c || (c == b + 2 && (s[b..c] == "**" || s[b..c] == "__")))
    && Spaces(s, c, m) && SaysBlockedBy(s, m)
  }

  // In capitals or not, letter by letter.
  ghost predicate SaysBlockedBy(s: string, m: nat) {
    m + 10 <= |s| && forall i | 0 <= i < 10 :: s[m + i] == "blocked by"[i] || s[m + i] == "BLOCKED BY"[i]
  }

  lemma SaysMarker(s: string, m: nat)
    ensures SaysBlockedBy(s, m) <==> MarkerAt(s, m)
  {
    if m + 10 <= |s| {
      forall i | 0 <= i < 10
        ensures (s[m + i] == "blocked by"[i] || s[m + i] == "BLOCKED BY"[i]) <==> Lower(s[m + i]) == MARKER[i]
      {
        LowerIs(s[m + i], i);
      }
    }
  }

  lemma LowerIs(c: char, i: nat)
    requires i < 10
    ensures (c == "blocked by"[i] || c == "BLOCKED BY"[i]) <==> Lower(c) == MARKER[i]
  {
  }

  lemma BoldIs(s: string, b: nat)
    requires b + 2 <= |s|
    ensures s[b..b + 2] == "**" || s[b..b + 2] == "__" <==> BoldAt(s, b)
  {
  }

  // One pass without backtracking finds an opening exactly when the pattern has a match,
  // and finds the marker where the match has it.
  lemma OnePassFindsMatch(s: string, a: nat, b: nat, c: nat, m: nat)
    requires OpeningAt(s, a, b, c, m)
    ensures TailStart(s).Some? && MarkerStart(s) == m
  {
    hide SkipBlanks, SkipDigits, MarkerAt, BulletBetween, SaysBlockedBy, BoldAt, AfterBullet;
    SaysMarker(s, m);
    MarkerIsLetter(s, m);
    NoBulletAt(s, m);
    if c == b + 2 {
      BoldIs(s, b);
      BoldIsNoBullet(s, b);
    }
    var indent := SkipBlanks(s, 0);
    if b == a {
      if c == b {
        assert indent == m;
        assert AfterBullet(s, m) == m && AfterBold(s, m) == m;
      } else {
        assert indent == a;
        assert AfterBullet(s, a) == a;
        assert SkipBlanks(s, c) == m;
      }
    } else {
      BulletEnds(s, a, b);
      assert indent == a;
      if c == b {
        assert SkipBlanks(s, b) == m;
        assert AfterBold(s, m) == m;
      } else {
        assert SkipBlanks(s, b) == b;
        assert SkipBlanks(s, c) == m;
      }
    }
  }

  // A letter opens neither a bullet nor bold, and bold opens no bullet.
  lemma NoBulletAt(s: string, m: nat)
    requires m < |s| && (s[m] == 'b' || s[m] == 'B')
    ensures AfterBullet(s, m) == m && AfterBold(s, m) == m && !Blank(s[m])
  {
  }

  lemma BoldIsNoBullet(s: string, b: nat)
    requires BoldAt(s, b)
    ensures b < |s| && AfterBullet(s, b) == b && !Blank(s[b])
  {
  }

  lemma MarkerIsLetter(s: string, m: nat)
    requires MarkerAt(s, m)
    ensures m < |s| && (s[m] == 'b' || s[m] == 'B')
  {
    assert Lower(s[m + 0]) == MARKER[0];
  }

  lemma BulletEnds(s: string, a: nat, b: nat)
    requires a < b <= |s| && BulletBetween(s, a, b)
    ensures !Blank(s[a]) && AfterBullet(s, a) == SkipBlanks(s, b)
  {
    if a + 1 < b && (s[a] == '-' || s[a] == '*' || s[a] == '+') && Spaces(s, a + 1, b) {
      SameSkip(s, a + 1, b);
    } else {
      var d: nat :| NumberedAt(s, a, d, b);
      assert IsDigit(s[a]);
      assert SkipDigits(s, a) == d;
      SameSkip(s, d + 1, b);
    }
  }

  lemma SameSkip(s: string, a: nat, b: nat)
    requires a <= b <= |s| && Spaces(s, a, b)
    ensures SkipBlanks(s, a) == SkipBlanks(s, b)
  {
  }

  lemma DeclaresIffMatches(s: string)
    ensures TailStart(s).Some? <==> exists a: nat, b: nat, c: nat, m: nat :: OpeningAt(s, a, b, c, m)
  {
    hide OpeningAt, MarkerStart, MarkerAt;
    if a: nat, b: nat, c: nat, m: nat :| OpeningAt(s, a, b, c, m) {
      OnePassFindsMatch(s, a, b, c, m);
    }
    if TailStart(s).Some? {
      PassIsMatch(s);
    }
  }

  lemma PassIsMatch(s: string)
    requires MarkerAt(s, MarkerStart(s))
    ensures exists a: nat, b: nat, c: nat, m: nat :: OpeningAt(s, a, b, c, m)
  {
    hide SkipBlanks, AfterBullet, BulletBetween, SaysBlockedBy, MarkerAt, BoldAt;
    var indent, m := SkipBlanks(s, 0), MarkerStart(s);
    SaysMarker(s, m);
    if indent > 3 {
      assert BulletBetween(s, 3, 3) by { NoBullet(s, 3); }
      assert OpeningAt(s, 3, 3, 3, m);
    } else {
      var b := AfterBullet(s, indent);
      BulletIsRead(s, indent);
      if BoldAt(s, b) {
        BoldFits(s, b);
        BoldIs(s, b);
      }
      assert OpeningAt(s, indent, b, AfterBold(s, b), m);
    }
  }

  lemma NoBullet(s: string, a: nat)
    requires a <= |s|
    ensures BulletBetween(s, a, a)
  {
  }

  lemma BoldFits(s: string, b: nat)
    requires BoldAt(s, b)
    ensures b + 2 <= |s|
  {
  }

  lemma BulletIsRead(s: string, a: nat)
    requires a <= |s|
    ensures a <= AfterBullet(s, a) <= |s| && BulletBetween(s, a, AfterBullet(s, a))
  {
    hide SkipBlanks, SkipDigits;
    var b, d := AfterBullet(s, a), SkipDigits(s, a);
    if b > a && !(a + 1 < |s| && (s[a] == '-' || s[a] == '*' || s[a] == '+') && Blank(s[a + 1])) {
      assert NumberedAt(s, a, d, b);
    }
  }

  // What follows the marker before the list: spaces, perhaps a colon, spaces, perhaps bold.
  lemma TailIs(s: string, a: nat, b: nat, c: nat, m: nat) returns (colon: nat, bold: nat)
    requires OpeningAt(s, a, b, c, m)
    ensures SpacesTo(s, m + 10, colon)
    ensures if colon < |s| && s[colon] == ':' then SpacesTo(s, colon + 1, bold) else bold == colon
    ensures TailStart(s) ==
      Some(if bold + 2 <= |s| && (s[bold..bold + 2] == "**" || s[bold..bold + 2] == "__") then bold + 2 else bold)
  {
    hide SkipBlanks, BoldAt, OpeningAt, MarkerStart, MarkerAt;
    OnePassFindsMatch(s, a, b, c, m);
    MarkerFits(s, m);
    colon := SkipBlanks(s, m + 10);
    bold := AfterColon(s, m + 10);
    assert SkipBlanks(s, colon) == colon by { SkippedIsSkipped(s, m + 10); }
    if bold + 2 <= |s| {
      BoldIs(s, bold);
    } else {
      NoRoomForBold(s, bold);
    }
  }

  lemma MarkerFits(s: string, m: nat)
    ensures MarkerAt(s, m) ==> m + 10 <= |s|
  {
  }

  lemma SkippedIsSkipped(s: string, pos: nat)
    requires pos <= |s|
    ensures SkipBlanks(s, SkipBlanks(s, pos)) == SkipBlanks(s, pos)
  {
  }

  lemma NoRoomForBold(s: string, b: nat)
    requires b + 2 > |s|
    ensures !BoldAt(s, b)
  {
  }

  // Only a bullet, a number or bold makes the three-space limit on the indent count: an
  // undecorated marker declares at any depth, although the file's comment says at most 3.
  lemma IndentLimit(indent: string, text: string)
    requires AllBlank(indent) && text != "" && !Blank(text[0])
    ensures MarkerAt(text, 0) ==> TailStart(indent + text).Some?
    ensures !MarkerAt(text, 0) && |indent| > 3 ==> TailStart(indent + text).None?
  {
    hide SkipBlanks, SkipDigits;
    var s, k := indent + text, |indent|;
    assert forall i | 0 <= i < k :: s[i] == indent[i];
    assert s[k] == text[0];
    assert SkipBlanks(s, 0) == k;
    assert forall i {:trigger MARKER[i]} | 0 <= i < |MARKER| && i < |text| :: s[k + i] == text[i];
    assert MarkerAt(s, k) <==> MarkerAt(text, 0);
    if MarkerAt(text, 0) {
      MarkerIsLetter(s, k);
      assert AfterBullet(s, k) == k && AfterBold(s, k) == k;
    }
  }

  // What may stand between the marker and the list.
  datatype Close = Close(before: string, colon: bool, after: string, bold: string, lead: string)

  predicate AcceptedClose(c: Close) {
    && AllBlank(c.before) && AllBlank(c.after) && AllBlank(c.lead)
    && (c.bold == "" || c.bold == "**" || c.bold == "__")
    && (c.bold == "" ==> c.lead == "")
  }

  function Closed(c: Close, list: string): string {
    c.before + ((if c.colon then ":" else "") + (c.after + (c.bold + list)))
  }

  // A line with any accepted opening and close declares exactly the references listed.
  lemma DeclarationIsRead(line: string, a: nat, b: nat, c: nat, m: nat, close: Close,
      first: nat, rest: seq<(Joint, nat)>, after: string)
    requires OpeningAt(line, a, b, c, m) && AcceptedClose(close)
    requires (forall i | 0 <= i < |rest| :: Accepted(rest[i].0)) && Stops(after, 0)
    requires line[m + |MARKER|..] == Closed(close, close.lead + Printed(first, rest) + after)
    ensures DeclaredRefs(line) == Numbers(first, rest)
  {
    hide OpeningAt, SkipBlanks, MarkerStart, MarkerAt, AfterBold, AfterColon, Printed, Numbers, RefsFrom, Accepted, Stops;
    hide Closed, AllBlank, IsDigit;
    OnePassFindsMatch(line, a, b, c, m);
    var list := close.lead + Printed(first, rest) + after;
    PrintedStarts(first, rest);
    CloseIsSkipped(line, m + |MARKER|, close, list);
    assert line[TailStart(line).value..] == "" + close.lead + Printed(first, rest) + after;
    PrintedListIsRead("", close.lead, first, rest, after);
  }

  lemma CloseIsSkipped(line: string, from: nat, close: Close, list: string)
    requires from <= |line| && line[from..] == Closed(close, list) && AcceptedClose(close)
    requires list != "" && (if close.lead == "" then list[0] == '#' else list[0] == close.lead[0])
    ensures AfterBold(line, AfterColon(line, from)) == |line| - |list| && line[|line| - |list|..] == list
  {
    hide SkipBlanks, AllBlank, AfterBold, AfterColon, Closed, AcceptedClose, Blank;
    var text := close.bold + list;
    CloseParts(close, list);
    if close.colon {
      ColonIsSkipped(line, from, close.before, close.after, text);
    } else {
      NoColonIsSkipped(line, from, close.before + close.after, text);
    }
    BoldIsSkipped(line, |line| - |text|, close.bold, list);
  }

  lemma ColonIsSkipped(line: string, from: nat, before: string, after: string, text: string)
    requires from <= |line| && line[from..] == before + (":" + (after + text))
    requires AllBlank(before) && AllBlank(after) && text != "" && !Blank(text[0])
    ensures AfterColon(line, from) == |line| - |text| && line[|line| - |text|..] == text
  {
    hide SkipBlanks, AllBlank;
    var rest := ":" + (after + text);
    assert rest[1..] == after + text;
    SkipsOver(line, from, before, rest);
    SkipsOver(line, from + |before| + 1, after, text);
  }

  lemma NoColonIsSkipped(line: string, from: nat, blanks: string, text: string)
    requires from <= |line| && line[from..] == blanks + text
    requires AllBlank(blanks) && text != "" && !Blank(text[0]) && text[0] != ':'
    ensures AfterColon(line, from) == |line| - |text| && line[|line| - |text|..] == text
  {
    hide SkipBlanks, AllBlank;
    SkipsOver(line, from, blanks, text);
  }

  lemma CloseParts(c: Close, list: string)
    requires AcceptedClose(c) && list != "" && (if c.lead == "" then list[0] == '#' else list[0] == c.lead[0])
    ensures c.bold == "**" || c.bold == "__" || (c.bold == "" && list[0] == '#')
    ensures var text := c.bold + list;
      && text != "" && !Blank(text[0]) && text[0] != ':'
      && AllBlank(c.before) && AllBlank(c.after) && AllBlank(c.before + c.after)
      && (c.colon ==> Closed(c, list) == c.before + (":" + (c.after + text)))
      && (!c.colon ==> Closed(c, list) == (c.before + c.after) + text)
  {
    assert (c.before + c.after) + (c.bold + list) == c.before + ("" + (c.after + (c.bold + list)));
  }

  lemma BoldIsSkipped(line: string, at: nat, bold: string, list: string)
    requires at <= |line| && line[at..] == bold + list && list != ""
    requires bold == "**" || bold == "__" || (bold == "" && list[0] == '#')
    ensures AfterBold(line, at) == at + |bold| && line[at + |bold|..] == list
  {
    assert line[at] == (bold + list)[0];
    assert bold != "" ==> line[at + 1] == (bold + list)[1];
    assert line[at + |bold|..] == (bold + list)[|bold|..];
  }

  lemma SkipsOver(line: string, from: nat, blanks: string, tail: string)
    requires from <= |line| && line[from..] == blanks + tail
    requires AllBlank(blanks) && tail != "" && !Blank(tail[0])
    ensures var end := from + |blanks|;
      && end < |line| && SkipBlanks(line, from) == end
      && line[end] == tail[0] && line[end..] == tail && line[end + 1..] == tail[1..]
  {
    hide SkipBlanks;
    var end := from + |blanks|;
    assert forall i | from <= i < end :: line[i] == blanks[i - from];
    assert line[end] == tail[0];
    assert line[end..] == tail;
    assert line[end + 1..] == line[end..][1..];
  }

  // ---- A whole body ----

  function LineEnd(s: string, pos: nat): (end: nat)
    requires pos <= |s|
    ensures pos <= end <= |s|
    ensures forall i | pos <= i < end :: s[i] != '\n'
    ensures end < |s| ==> s[end] == '\n'
    decreases |s| - pos
  {
    if pos < |s| && s[pos] != '\n' then LineEnd(s, pos + 1) else pos
  }

  function Lines(s: string): seq<string>
    decreases |s|
  {
    var e := LineEnd(s, 0);
    if e == |s| then [s] else [s[..e]] + Lines(s[e + 1..])
  }

  function Join(lines: seq<string>): string
    requires lines != []
  {
    if |lines| == 1 then lines[0] else lines[0] + "\n" + Join(lines[1..])
  }

  function RefsOn(lines: seq<string>): set<nat> {
    if lines == [] then {} else DeclaredRefs(lines[0]) + RefsOn(lines[1..])
  }

  function BlockersIn(body: Option<string>): set<nat> {
    if body.None? then {} else RefsOn(Lines(body.value))
  }

  method BlockedBy(body: Option<string>) returns (refs: set<nat>)
    ensures refs == BlockersIn(body)
  {
    hide SkipBlanks, LineEnd, DeclaredRefs, Lines, RefsOn, TailStart, RefsFrom;
    refs := {};
    var text := if body.Some? then body.value else "";
    var pos := 0;
    assert text[pos..] == text;
    EmptyDeclaresNothing();
    while pos <= |text|
      invariant 0 <= pos <= |text| + 1
      invariant pos <= |text| ==> refs + RefsOn(Lines(text[pos..])) == RefsOn(Lines(text))
      invariant pos == |text| + 1 ==> refs == RefsOn(Lines(text))
    {
      var end := LineEnd(text, pos);
      var line := text[pos..end];
      LineOfRest(text, pos);
      var t := TailStart(line);
      TailDeclares(line);
      if t.Some? {
        var more := PrefixRefs(line[t.value..]);
        refs := refs + more;
      }
      pos := end + 1;
    }
  }

  lemma TailDeclares(line: string)
    ensures var t := TailStart(line);
      DeclaredRefs(line) == if t.Some? then RefsFrom(line[t.value..], 0) else {}
  {
  }

  lemma EmptyDeclaresNothing()
    ensures RefsOn(Lines("")) == {}
  {
    assert !MarkerAt("", 0);
    assert Lines("") == [""];
    assert RefsOn([""]) == DeclaredRefs("") + RefsOn([""][1..]);
  }

  lemma LineOfRest(text: string, pos: nat)
    requires pos <= |text|
    ensures var end := LineEnd(text, pos);
      RefsOn(Lines(text[pos..])) == DeclaredRefs(text[pos..end])
        + (if end == |text| then {} else RefsOn(Lines(text[end + 1..])))
  {
    hide LineEnd, DeclaredRefs;
    var rest, end := text[pos..], LineEnd(text, pos);
    var e := end - pos;
    assert forall i | 0 <= i < |rest| :: rest[i] == text[pos + i];
    LineEndsThere(rest, 0, e);
    assert rest[..e] == text[pos..end];
    if end < |text| {
      assert rest[e + 1..] == text[end + 1..];
      RefsOnCons(rest[..e], Lines(text[end + 1..]));
    } else {
      assert rest[..e] == rest;
      RefsOnCons(rest, []);
      assert [rest] + [] == [rest];
      assert Lines(rest) == [rest];
    }
  }

  lemma LineEndsThere(s: string, pos: nat, end: nat)
    requires pos <= end <= |s|
    requires forall i | pos <= i < end :: s[i] != '\n'
    requires end < |s| ==> s[end] == '\n'
    ensures LineEnd(s, pos) == end
  {
  }

  lemma RefsOnCons(line: string, lines: seq<string>)
    ensures RefsOn([line] + lines) == DeclaredRefs(line) + RefsOn(lines)
  {
    hide DeclaredRefs;
    assert ([line] + lines)[1..] == lines;
  }

  lemma {:induction false} LinesOfJoin(lines: seq<string>)
    requires lines != [] && forall i | 0 <= i < |lines| :: '\n' !in lines[i]
    ensures Lines(Join(lines)) == lines
  {
    hide LineEnd;
    var s, e := Join(lines), |lines[0]|;
    assert s[..e] == lines[0];
    assert forall i | 0 <= i < e :: s[i] == lines[0][i];
    LineEndsThere(s, 0, e);
    if |lines| > 1 {
      assert s[e + 1..] == Join(lines[1..]);
      LinesOfJoin(lines[1..]);
    }
  }

  // The blockers of a body are exactly what its lines declare, one by one.
  lemma {:induction false} BlockersAreDeclared(lines: seq<string>, n: nat)
    requires lines != [] && forall i | 0 <= i < |lines| :: '\n' !in lines[i]
    ensures n in BlockersIn(Some(Join(lines))) <==> exists i :: 0 <= i < |lines| && n in DeclaredRefs(lines[i])
  {
    LinesOfJoin(lines);
    RefsOnAny(lines, n);
  }

  lemma {:induction false} RefsOnAny(lines: seq<string>, n: nat)
    ensures n in RefsOn(lines) <==> exists i :: 0 <= i < |lines| && n in DeclaredRefs(lines[i])
  {
    hide DeclaredRefs;
    if lines != [] {
      RefsOnAny(lines[1..], n);
      if i :| 0 <= i < |lines| && n in DeclaredRefs(lines[i]) {
        assert i == 0 || lines[1..][i - 1] == lines[i];
      }
    }
  }

  // ---- The filter ----

  datatype Issue = Issue(number: nat, taken: bool, labels: seq<string>, body: Option<string>)

  const HOLD_LABEL := "deferred"

  predicate Held(i: Issue) {
    HOLD_LABEL in i.labels
  }

  function OpenNumbers(issues: seq<Issue>): set<nat> {
    set k | 0 <= k < |issues| :: issues[k].number
  }

  predicate Ready(i: Issue, open: set<nat>) {
    !i.taken && !Held(i) && BlockersIn(i.body) * open == {}
  }

  function ReadyOf(issues: seq<Issue>, open: set<nat>): seq<Issue> {
    if issues == [] then []
    else
      var last := issues[|issues| - 1];
      ReadyOf(issues[..|issues| - 1], open) + (if Ready(last, open) then [last] else [])
  }

  method FilterReady(issues: seq<Issue>) returns (ready: seq<Issue>)
    ensures ready == ReadyOf(issues, OpenNumbers(issues))
  {
    hide BlockersIn;
    var open := OpenNumbers(issues);
    ready := [];
    for k := 0 to |issues|
      invariant ready == ReadyOf(issues[..k], open)
    {
      var i := issues[k];
      assert issues[..k + 1][..k] == issues[..k];
      if i.taken {
        continue;
      }
      if Held(i) {
        continue;
      }
      var blockers := BlockedBy(i.body);
      if blockers * open != {} {
        continue;
      }
      ready := ready + [i];
    }
    assert issues[..|issues|] == issues;
  }

  lemma {:induction false} ReadyMembers(issues: seq<Issue>, open: set<nat>, i: Issue)
    ensures i in ReadyOf(issues, open) <==> i in issues && Ready(i, open)
  {
    hide Ready;
    if issues != [] {
      var shorter := issues[..|issues| - 1];
      ReadyMembers(shorter, open, i);
      assert issues == shorter + [issues[|issues| - 1]];
    }
  }

  // Ready are exactly the issues that nobody has, that carry no hold label and that no open
  // issue blocks; they stand in the order they came in.
  lemma ReadyIff(issues: seq<Issue>, i: Issue)
    ensures i in ReadyOf(issues, OpenNumbers(issues)) <==>
      && i in issues && !i.taken && "deferred" !in i.labels
      && forall j | 0 <= j < |issues| :: issues[j].number !in BlockersIn(i.body)
  {
    hide BlockersIn;
    var open, blockers := OpenNumbers(issues), BlockersIn(i.body);
    ReadyMembers(issues, open, i);
    if blockers * open == {} {
      forall j | 0 <= j < |issues|
        ensures issues[j].number !in blockers
      {
        assert issues[j].number in open;
        assert issues[j].number !in blockers * open;
      }
    } else {
      var n :| n in blockers * open;
      var j :| 0 <= j < |issues| && issues[j].number == n;
    }
  }

  lemma {:induction false} ReadyInOrder(issues: seq<Issue>, open: set<nat>, a: nat, b: nat) returns (i: nat, j: nat)
    requires a < b < |ReadyOf(issues, open)|
    ensures i < j < |issues| && issues[i] == ReadyOf(issues, open)[a] && issues[j] == ReadyOf(issues, open)[b]
  {
    hide Ready;
    var n := |issues| - 1;
    var shorter := ReadyOf(issues[..n], open);
    if b < |shorter| {
      i, j := ReadyInOrder(issues[..n], open, a, b);
    } else {
      ReadyMembers(issues[..n], open, shorter[a]);
      i :| 0 <= i < n && issues[..n][i] == shorter[a];
      j := n;
    }
  }

  // Held up by the one issue alone.
  predicate OnlyBlockedBy(i: Issue, open: set<nat>, number: nat) {
    !i.taken && !Held(i) && BlockersIn(i.body) * open == {number}
  }

  // Closing an issue takes no other issue out of the ready list, and brings in exactly
  // those that it alone was holding up.
  lemma ClosingUnblocks(issues: seq<Issue>, k: nat, i: Issue)
    requires k < |issues|
    requires forall j, l | 0 <= j < l < |issues| :: issues[j].number != issues[l].number
    requires i in issues[..k] + issues[k + 1..]
    ensures var left := issues[..k] + issues[k + 1..];
      i in ReadyOf(left, OpenNumbers(left)) <==>
        i in ReadyOf(issues, OpenNumbers(issues)) || OnlyBlockedBy(i, OpenNumbers(issues), issues[k].number)
  {
    hide BlockersIn, Held;
    var left := issues[..k] + issues[k + 1..];
    var open, fewer, n := OpenNumbers(issues), OpenNumbers(left), issues[k].number;
    assert fewer == open - {n} by { ClosedIsGone(issues, k); }
    ReadyMembers(left, fewer, i);
    ReadyMembers(issues, open, i);
    assert i in issues;
    var blockers := BlockersIn(i.body);
    if blockers * fewer == {} {
      assert blockers * open <= {n};
      assert n in blockers ==> blockers * open == {n};
      assert n !in blockers ==> blockers * open == {};
    }
  }

  lemma ClosedIsGone(issues: seq<Issue>, k: nat)
    requires k < |issues|
    requires forall j, l | 0 <= j < l < |issues| :: issues[j].number != issues[l].number
    ensures OpenNumbers(issues[..k] + issues[k + 1..]) == OpenNumbers(issues) - {issues[k].number}
  {
    var left := issues[..k] + issues[k + 1..];
    forall n: nat | n in OpenNumbers(issues) && n != issues[k].number
      ensures n in OpenNumbers(left)
    {
      var j :| 0 <= j < |issues| && issues[j].number == n;
      assert left[if j < k then j else j - 1].number == n;
    }
    forall n | n in OpenNumbers(left)
      ensures n in OpenNumbers(issues) - {issues[k].number}
    {
      var j :| 0 <= j < |left| && left[j].number == n;
      assert issues[if j < k then j else j + 1].number == n;
    }
  }
}
