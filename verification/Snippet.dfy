/** The search page's highlighter: a snippet cut at its bold tags into plain and marked
    pieces. */
module Snippet {
  import opened Options

  datatype Part = Plain(text: string) | Mark(text: string)

  const OPEN := "<b>"
  const CLOSE := "</b>"

  predicate At(s: string, pattern: string, pos: nat) {
    pos + |pattern| <= |s| && s[pos..pos + |pattern|] == pattern
  }

  // The first occurrence from pos on.
  function Find(s: string, pattern: string, pos: nat): (r: Option<nat>)
    requires pattern != ""
    ensures r.Some? ==> pos <= r.value && At(s, pattern, r.value)
    ensures forall i: nat | pos <= i && (r.None? || i < r.value) :: !At(s, pattern, i)
    decreases |s| - pos
  {
    if At(s, pattern, pos) then Some(pos) else if pos >= |s| then None else Find(s, pattern, pos + 1)
  }

  // Tag to tag: i opens, j closes.
  ghost predicate Match(s: string, i: nat, j: nat) {
    At(s, OPEN, i) && i + |OPEN| <= j && At(s, CLOSE, j)
  }

  function Next(s: string, pos: nat): (r: Option<(nat, nat)>)
    ensures r.Some? ==> pos <= r.value.0 && Match(s, r.value.0, r.value.1) && r.value.1 + |CLOSE| <= |s|
  {
    var open := Find(s, OPEN, pos);
    if open.None? then None
    else
      var close := Find(s, CLOSE, open.value + |OPEN|);
      if close.None? then None else Some((open.value, close.value))
  }

  // What a lazy pattern finds: the leftmost opening that is closed at all, and its
  // nearest close; nothing only when no opening is closed.
  lemma NextIsLeftmost(s: string, pos: nat)
    ensures Next(s, pos).None? ==> forall i: nat, j: nat | pos <= i :: !Match(s, i, j)
    ensures Next(s, pos).Some? ==>
      && (forall i: nat, j: nat | pos <= i < Next(s, pos).value.0 :: !Match(s, i, j))
      && (forall j: nat | j < Next(s, pos).value.1 :: !Match(s, Next(s, pos).value.0, j))
  {
    hide At, Find;
  }

  function Parts(s: string, last: nat): seq<Part>
    requires last <= |s|
    decreases |s| - last
  {
    match Next(s, last)
    case None => if last < |s| then [Plain(s[last..])] else []
    case Some(m) =>
      (if m.0 > last then [Plain(s[last..m.0])] else [])
      + [Mark(s[m.0 + |OPEN|..m.1])] + Parts(s, m.1 + |CLOSE|)
  }

  lemma PartsUnfold(s: string, last: nat)
    requires last <= |s|
    ensures var m := Next(s, last);
      && (m.None? ==> Parts(s, last) == if last < |s| then [Plain(s[last..])] else [])
      && (m.Some? ==>
            var (i, j) := m.value;
            Parts(s, last) == (if i > last then [Plain(s[last..i])] else [])
              + ([Mark(s[i + |OPEN|..j])] + Parts(s, j + |CLOSE|)))
  {
    hide Next;
  }

  method RenderHighlightedSnippet(snippet: string) returns (parts: seq<Part>)
    ensures parts == Parts(snippet, 0)
  {
    hide Next, Parts;
    parts := [];
    var last := 0;
    var m := Next(snippet, last);
    while m.Some?
      invariant last <= |snippet| && m == Next(snippet, last)
      invariant parts + Parts(snippet, last) == Parts(snippet, 0)
      decreases |snippet| - last
    {
      PartsUnfold(snippet, last);
      if m.value.0 > last {
        parts := parts + [Plain(snippet[last..m.value.0])];
      }
      parts := parts + [Mark(snippet[m.value.0 + |OPEN|..m.value.1])];
      last := m.value.1 + |CLOSE|;
      m := Next(snippet, last);
    }
    PartsUnfold(snippet, last);
    if last < |snippet| {
      parts := parts + [Plain(snippet[last..])];
    }
  }

  function Restored(parts: seq<Part>): string {
    if parts == [] then ""
    else
      (match parts[0] case Plain(t) => t case Mark(t) => OPEN + t + CLOSE) + Restored(parts[1..])
  }

  // No character is lost, added or moved.
  lemma {:induction false} NothingIsLost(s: string, last: nat)
    requires last <= |s|
    ensures Restored(Parts(s, last)) == s[last..]
    decreases |s| - last
  {
    hide Next, At, Restored;
    assert Restored([]) == "" by { RestoredNone(); }
    match Next(s, last)
    case None =>
      if last < |s| {
        RestoredCons(Plain(s[last..]), []);
        assert [Plain(s[last..])] + [] == [Plain(s[last..])];
      }
    case Some(m) =>
      var after := m.1 + |CLOSE|;
      var mark := Mark(s[m.0 + |OPEN|..m.1]);
      NothingIsLost(s, after);
      RestoredCons(mark, Parts(s, after));
      MatchRestored(s, m.0, m.1);
      if m.0 > last {
        assert Parts(s, last) == [Plain(s[last..m.0])] + ([mark] + Parts(s, after));
        RestoredCons(Plain(s[last..m.0]), [mark] + Parts(s, after));
        assert s[last..] == s[last..m.0] + s[m.0..];
      } else {
        assert Parts(s, last) == [mark] + Parts(s, after);
      }
  }

  lemma RestoredNone()
    ensures Restored([]) == ""
  {
  }

  lemma MatchRestored(s: string, i: nat, j: nat)
    requires Match(s, i, j) && j + |CLOSE| <= |s|
    ensures s[i..] == (OPEN + s[i + |OPEN|..j] + CLOSE) + s[j + |CLOSE|..]
  {
    assert s[i..i + |OPEN|] == OPEN && s[j..j + |CLOSE|] == CLOSE;
  }

  lemma RestoredCons(p: Part, parts: seq<Part>)
    ensures Restored([p] + parts)
      == (match p case Plain(t) => t case Mark(t) => OPEN + t + CLOSE) + Restored(parts)
  {
    assert ([p] + parts)[1..] == parts;
  }

  ghost predicate Free(s: string, pattern: string) {
    forall i: nat :: !At(s, pattern, i)
  }

  ghost predicate Unmatched(s: string) {
    forall i: nat, j: nat :: !Match(s, i, j)
  }

  // Pieces as a snippet is meant to fall into: no empty or neighbouring plain pieces, no
  // close inside a mark, no opening in a plain piece that a later close would complete.
  ghost predicate Canonical(parts: seq<Part>) {
    parts != [] ==>
      match parts[0]
      case Mark(t) => Free(t, CLOSE) && Canonical(parts[1..])
      case Plain(t) =>
        t != ""
        && if |parts| == 1 then Unmatched(t) else Free(t, OPEN) && parts[1].Mark? && Canonical(parts[1..])
  }

  lemma AtInSlice(s: string, a: nat, b: nat, pattern: string, i: nat)
    requires a <= b <= |s|
    ensures At(s[a..b], pattern, i) <==> a + i + |pattern| <= b && At(s, pattern, a + i)
  {
    if i + |pattern| <= b - a {
      var x, y := s[a..b][i..i + |pattern|], s[a + i..a + i + |pattern|];
      assert |x| == |y| && forall k | 0 <= k < |x| :: x[k] == y[k];
      assert x == y;
    }
  }

  lemma RestIsUnmatched(s: string, last: nat)
    requires last <= |s| && Next(s, last).None?
    ensures Unmatched(s[last..])
  {
    hide At, Next;
    NextIsLeftmost(s, last);
    assert s[last..] == s[last..|s|];
    forall i: nat, j: nat
      ensures !Match(s[last..], i, j)
    {
      AtInSlice(s, last, |s|, OPEN, i);
      AtInSlice(s, last, |s|, CLOSE, j);
      assert !Match(s, last + i, last + j);
    }
  }

  lemma CutIsFree(s: string, last: nat, m: (nat, nat))
    requires last <= |s| && Next(s, last) == Some(m)
    ensures Free(s[last..m.0], OPEN) && Free(s[m.0 + |OPEN|..m.1], CLOSE)
  {
    hide At, Next;
    NextIsLeftmost(s, last);
    forall i: nat
      ensures !At(s[last..m.0], OPEN, i)
    {
      AtInSlice(s, last, m.0, OPEN, i);
      assert last + i < m.0 ==> !Match(s, last + i, m.1);
    }
    forall i: nat {:trigger At(s[m.0 + |OPEN|..m.1], CLOSE, i)}
      ensures !At(s[m.0 + |OPEN|..m.1], CLOSE, i)
    {
      AtInSlice(s, m.0 + |OPEN|, m.1, CLOSE, i);
      assert m.0 + |OPEN| + i < m.1 ==> !Match(s, m.0, m.0 + |OPEN| + i);
    }
  }

  lemma {:induction false} PartsAreCanonical(s: string, last: nat)
    requires last <= |s|
    ensures Canonical(Parts(s, last))
    decreases |s| - last
  {
    hide Next, Free, Unmatched, Parts, Canonical;
    PartsUnfold(s, last);
    match Next(s, last)
    case None =>
      RestIsUnmatched(s, last);
      CanonicalEnds(s[last..]);
    case Some(m) =>
      var after := m.1 + |CLOSE|;
      var mark, rest := Mark(s[m.0 + |OPEN|..m.1]), Parts(s, after);
      CutIsFree(s, last, m);
      PartsAreCanonical(s, after);
      CanonicalMark(mark.text, rest);
      if m.0 > last {
        CanonicalPlain(s[last..m.0], [mark] + rest);
      } else {
        assert [] + ([mark] + rest) == [mark] + rest;
      }
  }

  lemma CanonicalEnds(t: string)
    requires Unmatched(t)
    ensures Canonical([]) && (t != "" ==> Canonical([Plain(t)]))
  {
    hide Unmatched;
  }

  lemma CanonicalMark(t: string, rest: seq<Part>)
    requires Free(t, CLOSE) && Canonical(rest)
    ensures Canonical([Mark(t)] + rest)
  {
    hide Free;
    assert ([Mark(t)] + rest)[1..] == rest;
  }

  lemma CanonicalPlain(t: string, rest: seq<Part>)
    requires t != "" && Free(t, OPEN) && rest != [] && rest[0].Mark? && Canonical(rest)
    ensures Canonical([Plain(t)] + rest)
  {
    hide Free;
    assert ([Plain(t)] + rest)[1..] == rest;
  }

  // No tag starts inside an occurrence of a tag.
  lemma TagsDoNotOverlap(s: string, pattern: string, i: nat, e: nat)
    requires pattern == OPEN || pattern == CLOSE
    requires At(s, pattern, i) && i < e < i + |pattern|
    ensures s[e] != '<'
  {
    assert s[e] == s[i..i + |pattern|][e - i];
  }

  lemma FirstIs(s: string, pattern: string, pos: nat, e: nat)
    requires pattern == OPEN || pattern == CLOSE
    requires pos <= e < |s| && At(s, pattern, e) && s[e] == '<' && Free(s[pos..e], pattern)
    ensures Find(s, pattern, pos) == Some(e)
  {
    hide At, Find;
    forall i: nat {:trigger At(s, pattern, i)} | pos <= i < e
      ensures !At(s, pattern, i)
    {
      AtInSlice(s, pos, e, pattern, i - pos);
      assert !At(s[pos..e], pattern, i - pos);
      if At(s, pattern, i) && e < i + |pattern| {
        TagsDoNotOverlap(s, pattern, i, e);
      }
    }
    assert Find(s, pattern, pos).Some?;
  }

  lemma MarkIsFound(before: string, t: string, rest: string)
    requires Free(t, CLOSE)
    ensures Next(before + (OPEN + t + CLOSE + rest), |before|)
      == Some((|before|, |before| + |OPEN| + |t|))
  {
    hide Find, Free;
    var s := before + (OPEN + t + CLOSE + rest);
    var e := |before| + |OPEN| + |t|;
    assert s[|before|..|before| + |OPEN|] == OPEN;
    assert s[e..e + |CLOSE|] == CLOSE && s[e] == CLOSE[0];
    assert s[|before| + |OPEN|..e] == t;
    assert s[|before|] == OPEN[0];
    assert s[|before|..|before|] == "";
    EmptyIsFree();
    FirstIs(s, OPEN, |before|, |before|);
    FirstIs(s, CLOSE, |before| + |OPEN|, e);
  }

  lemma EmptyIsFree()
    ensures Free("", OPEN)
  {
  }

  lemma PlainIsSkipped(s: string, last: nat, e: nat)
    requires last < e < |s| && At(s, OPEN, e) && Free(s[last..e], OPEN) && Next(s, e).Some? && Next(s, e).value.0 == e
    ensures Parts(s, last) == [Plain(s[last..e])] + Parts(s, e)
  {
    hide Next, Free, At;
    NextSkips(s, last, e);
    var m := Next(s, e).value;
    assert Parts(s, e) == [] + [Mark(s[m.0 + |OPEN|..m.1])] + Parts(s, m.1 + |CLOSE|);
  }

  lemma NextSkips(s: string, last: nat, e: nat)
    requires last < e < |s| && At(s, OPEN, e) && Free(s[last..e], OPEN)
    ensures Next(s, last) == Next(s, e)
  {
    hide Free, Find;
    assert s[e] == s[e..e + |OPEN|][0];
    FirstIs(s, OPEN, last, e);
    assert Find(s, OPEN, e) == Some(e);
  }

  // The cut undoes the markup: canonical pieces written out are cut into themselves.
  lemma {:induction false} CutUndoesMarkup(before: string, parts: seq<Part>)
    requires Canonical(parts)
    ensures Parts(before + Restored(parts), |before|) == parts
    decreases |parts|
  {
    hide At, Next, Free, Unmatched, Parts, Restored;
    if parts == [] {
      NothingAhead(before);
      RestoredNone();
      assert before + "" == before;
    } else {
      var rest := Restored(parts[1..]);
      assert [parts[0]] + parts[1..] == parts;
      RestoredCons(parts[0], parts[1..]);
      match parts[0] {
        case Mark(t) =>
          CutUndoesMarkup(before + (OPEN + t + CLOSE), parts[1..]);
          Regroup(before, OPEN + t + CLOSE, rest);
          MarkIsCut(before, t, rest);
        case Plain(t) =>
          if |parts| == 1 {
            AllIsPlain(before, t);
            RestoredNone();
            assert t + "" == t;
          } else {
            CutUndoesMarkup(before + t, parts[1..]);
            assert [parts[1]] + parts[2..] == parts[1..];
            RestoredCons(parts[1], parts[2..]);
            Regroup(before, t, rest);
            PlainIsCut(before, t, parts[1].text, Restored(parts[2..]));
          }
      }
    }
  }

  lemma Regroup(a: string, b: string, c: string)
    ensures a + (b + c) == (a + b) + c
  {
  }

  lemma MarkIsCut(before: string, t: string, rest: string)
    requires Free(t, CLOSE)
    ensures var s := before + (OPEN + t + CLOSE + rest);
      Parts(s, |before|) == [Mark(t)] + Parts(s, |before + (OPEN + t + CLOSE)|)
  {
    hide At, Next, Free;
    MarkIsFound(before, t, rest);
    var s := before + (OPEN + t + CLOSE + rest);
    assert s[|before| + |OPEN|..|before| + |OPEN| + |t|] == t;
  }

  lemma PlainIsCut(before: string, t: string, u: string, more: string)
    requires t != "" && Free(t, OPEN) && Free(u, CLOSE)
    ensures var s := (before + t) + (OPEN + u + CLOSE + more);
      Parts(s, |before|) == [Plain(t)] + Parts(s, |before + t|)
  {
    hide At, Next, Free, Parts;
    var s := (before + t) + (OPEN + u + CLOSE + more);
    assert s[|before|..|before + t|] == t;
    MarkIsFound(before + t, u, more);
    NextOpens(s, |before + t|);
    PlainIsSkipped(s, |before|, |before + t|);
  }

  lemma AllIsPlain(before: string, t: string)
    requires t != "" && Unmatched(t)
    ensures Parts(before + t, |before|) == [Plain(t)]
  {
    hide At, Next, Unmatched;
    AllUnmatched(before, t);
    assert (before + t)[|before|..] == t;
  }

  lemma NextOpens(s: string, pos: nat)
    requires Next(s, pos).Some?
    ensures At(s, OPEN, Next(s, pos).value.0)
  {
  }

  lemma NothingAhead(s: string)
    ensures Parts(s, |s|) == []
  {
  }

  lemma AllUnmatched(before: string, t: string)
    requires Unmatched(t)
    ensures Next(before + t, |before|).None?
  {
    hide Find;
    var s := before + t;
    assert s[|before|..] == t;
    assert s[|before|..|s|] == t;
    forall i: nat, j: nat | |before| <= i
      ensures !Match(s, i, j)
    {
      if |before| <= j {
        AtInSlice(s, |before|, |s|, OPEN, i - |before|);
        AtInSlice(s, |before|, |s|, CLOSE, j - |before|);
        assert !Match(t, i - |before|, j - |before|);
      }
    }
  }
}
