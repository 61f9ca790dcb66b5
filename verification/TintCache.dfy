/** The bounded cache of recoloured textures, against the recency list it would be
    without a bound. */
module TintCache {
  import opened Options
  import opened Sequences
  import opened Text

  const CACHE_LIMIT: nat := 256

  datatype Entry = Entry(key: string, value: string)

  function Keys(m: seq<Entry>): seq<string> {
    seq(|m|, i requires 0 <= i < |m| => m[i].key)
  }

  // A JavaScript Map: entries in insertion order, one per key.
  ghost predicate IsMap(m: seq<Entry>) {
    forall i, j | 0 <= i < j < |m| :: m[i].key != m[j].key
  }

  predicate Has(m: seq<Entry>, key: string) {
    exists i | 0 <= i < |m| :: m[i].key == key
  }

  function Lookup(m: seq<Entry>, key: string): Option<string> {
    if m == [] then None
    else if m[|m| - 1].key == key then Some(m[|m| - 1].value)
    else Lookup(m[..|m| - 1], key)
  }

  function Delete(m: seq<Entry>, key: string): seq<Entry> {
    if m == [] then []
    else if m[|m| - 1].key == key then m[..|m| - 1]
    else Delete(m[..|m| - 1], key) + [m[|m| - 1]]
  }

  // Move to, or enter at, the most recently used end.
  function Touch(m: seq<Entry>, key: string, value: string): seq<Entry> {
    Delete(m, key) + [Entry(key, value)]
  }

  lemma HasSnoc(m: seq<Entry>, e: Entry, key: string)
    ensures Has(m + [e], key) <==> Has(m, key) || e.key == key
  {
    if Has(m, key) {
      var i :| 0 <= i < |m| && m[i].key == key;
      assert (m + [e])[i].key == key;
    }
    assert (m + [e])[|m|] == e;
  }

  lemma IsMapSnoc(m: seq<Entry>, e: Entry)
    ensures IsMap(m + [e]) <==> IsMap(m) && !Has(m, e.key)
  {
    var r := m + [e];
    assert r[|m|] == e && forall i | 0 <= i < |m| :: r[i] == m[i];
    if IsMap(r) {
      forall i | 0 <= i < |m| ensures m[i].key != e.key {
        assert r[i].key != r[|m|].key;
      }
    }
  }

  lemma {:induction false} DeleteHas(m: seq<Entry>, key: string, k: string)
    requires IsMap(m)
    ensures Has(Delete(m, key), k) <==> Has(m, k) && k != key
  {
    hide Has, IsMap;
    if m == [] {
      NoneHas(k);
    } else {
      var init, last := m[..|m| - 1], m[|m| - 1];
      assert m == init + [last];
      IsMapSnoc(init, last);
      HasSnoc(init, last, k);
      if last.key != key {
        DeleteHas(init, key, k);
        HasSnoc(Delete(init, key), last, k);
      }
    }
  }

  lemma NoneHas(k: string)
    ensures !Has([], k)
  {
  }

  lemma {:induction false} DeleteIsMap(m: seq<Entry>, key: string)
    requires IsMap(m)
    ensures IsMap(Delete(m, key))
  {
    hide Has, IsMap;
    if m != [] {
      var init, last := m[..|m| - 1], m[|m| - 1];
      assert m == init + [last];
      IsMapSnoc(init, last);
      if last.key != key {
        DeleteIsMap(init, key);
        DeleteHas(init, key, last.key);
        IsMapSnoc(Delete(init, key), last);
      }
    }
  }

  lemma TouchIsMap(m: seq<Entry>, key: string, value: string)
    requires IsMap(m)
    ensures IsMap(Touch(m, key, value))
  {
    DeleteIsMap(m, key);
    DeleteHas(m, key, key);
    IsMapSnoc(Delete(m, key), Entry(key, value));
  }

  lemma {:induction false} DeleteLength(m: seq<Entry>, key: string)
    ensures |m| - 1 <= |Delete(m, key)| <= |m|
  {
    if m != [] {
      DeleteLength(m[..|m| - 1], key);
    }
  }

  class LruCache {
    var entries: seq<Entry>

    ghost predicate Valid()
      reads this
    {
      IsMap(entries) && |entries| <= CACHE_LIMIT
    }

    constructor ()
      ensures Valid() && entries == []
    {
      entries := [];
    }

    method CacheGet(key: string) returns (value: Option<string>)
      requires Valid()
      modifies this
      ensures Valid()
      ensures value == Lookup(old(entries), key)
      ensures entries == if value.Some? then Touch(old(entries), key, value.value) else old(entries)
    {
      hide IsMap;
      value := Lookup(entries, key);
      if value.Some? {
        TouchIsMap(entries, key, value.value);
        LookupShrinks(entries, key);
        entries := Delete(entries, key);
        entries := entries + [Entry(key, value.value)];
      }
    }

    method CacheSet(key: string, value: string)
      requires Valid()
      modifies this
      ensures Valid()
      ensures entries == Suffix(Touch(old(entries), key, value), CACHE_LIMIT)
    {
      TouchIsMap(entries, key, value);
      DeleteLength(entries, key);
      if Lookup(entries, key).Some? {
        entries := Delete(entries, key);
      } else {
        MissedDelete(entries, key);
      }
      entries := entries + [Entry(key, value)];
      ghost var touched := Touch(old(entries), key, value);
      while |entries| > CACHE_LIMIT
        invariant |entries| <= |touched| && entries == touched[|touched| - |entries|..]
        invariant |entries| == |touched| || |entries| >= CACHE_LIMIT
        invariant IsMap(entries)
      {
        entries := entries[1..];
      }
    }
  }

  lemma {:induction false} LookupShrinks(m: seq<Entry>, key: string)
    ensures Lookup(m, key).Some? ==> |Delete(m, key)| == |m| - 1
  {
    if m != [] && m[|m| - 1].key != key {
      LookupShrinks(m[..|m| - 1], key);
    }
  }

  lemma {:induction false} MissedDelete(m: seq<Entry>, key: string)
    requires Lookup(m, key).None?
    ensures Delete(m, key) == m
  {
    if m != [] {
      MissedDelete(m[..|m| - 1], key);
    }
  }

  // ---- The bound only ever costs the least recently used ----

  lemma SuffixSnoc(m: seq<Entry>, e: Entry, n: nat)
    ensures Suffix(m + [e], n) == if n == 0 then [] else Suffix(m, n - 1) + [e]
  {
  }

  lemma SuffixSuffix(m: seq<Entry>, k: nat, n: nat)
    requires k <= n
    ensures Suffix(Suffix(m, n), k) == Suffix(m, k)
  {
  }

  // The newest n - 1 entries without a key depend only on the newest n.
  lemma {:induction false} DeleteThenSuffix(m: seq<Entry>, key: string, n: nat)
    requires n > 0
    ensures Suffix(Delete(m, key), n - 1) == Suffix(Delete(Suffix(m, n), key), n - 1)
  {
    hide Suffix;
    if m == [] {
      EmptySuffix(n);
    } else {
      var init, last := m[..|m| - 1], m[|m| - 1];
      var t := Suffix(init, n - 1);
      assert m == init + [last] && (t + [last])[..|t|] == t;
      SuffixSnoc(init, last, n);
      if last.key == key {
        SuffixSuffix(init, n - 1, n - 1);
      } else if n > 1 {
        DeleteThenSuffix(init, key, n - 1);
        SuffixSnoc(Delete(init, key), last, n - 1);
        SuffixSnoc(Delete(t, key), last, n - 1);
      } else {
        SuffixSnoc(Delete(init, key), last, 0);
        SuffixSnoc(Delete(t, key), last, 0);
      }
    }
  }

  lemma EmptySuffix(n: nat)
    ensures Suffix<Entry>([], n) == []
  {
  }

  lemma TouchThenSuffix(m: seq<Entry>, key: string, value: string, n: nat)
    requires n > 0
    ensures Suffix(Touch(m, key, value), n) == Suffix(Touch(Suffix(m, n), key, value), n)
  {
    hide Suffix, Delete;
    DeleteThenSuffix(m, key, n);
    SuffixSnoc(Delete(m, key), Entry(key, value), n);
    SuffixSnoc(Delete(Suffix(m, n), key), Entry(key, value), n);
  }

  // ---- Any sequence of gets and sets ----

  datatype Op = Get(key: string) | Set(key: string, value: string)

  function Take(m: seq<Entry>, op: Op): seq<Entry> {
    match op
    case Get(key) => if Lookup(m, key).Some? then Touch(m, key, Lookup(m, key).value) else m
    case Set(key, value) => Suffix(Touch(m, key, value), CACHE_LIMIT)
  }

  function Run(ops: seq<Op>): seq<Entry> {
    if ops == [] then [] else Take(Run(ops[..|ops| - 1]), ops[|ops| - 1])
  }

  // What was touched, in order: every set, and every get that hit.
  function Touches(ops: seq<Op>): seq<Entry> {
    if ops == [] then []
    else
      var earlier := Touches(ops[..|ops| - 1]);
      match ops[|ops| - 1]
      case Set(key, value) => earlier + [Entry(key, value)]
      case Get(key) =>
        var hit := Lookup(Run(ops[..|ops| - 1]), key);
        if hit.Some? then earlier + [Entry(key, hit.value)] else earlier
  }

  // Each touched key once, by its last touch, least recent first.
  function Recency(touches: seq<Entry>): seq<Entry> {
    if touches == [] then []
    else Touch(Recency(touches[..|touches| - 1]), touches[|touches| - 1].key, touches[|touches| - 1].value)
  }

  lemma {:induction false} LookupSuffix(m: seq<Entry>, key: string, n: nat)
    requires Lookup(Suffix(m, n), key).Some?
    ensures Lookup(m, key) == Lookup(Suffix(m, n), key)
  {
    if m != [] && n > 0 && m[|m| - 1].key != key {
      assert Suffix(m, n)[..|Suffix(m, n)| - 1] == Suffix(m[..|m| - 1], n - 1);
      LookupSuffix(m[..|m| - 1], key, n - 1);
    }
  }

  lemma GetIsTouch(m: seq<Entry>, key: string, value: string)
    requires Lookup(m, key).Some? && |m| <= CACHE_LIMIT
    ensures Suffix(Touch(m, key, value), CACHE_LIMIT) == Touch(m, key, value)
  {
    LookupShrinks(m, key);
  }

  // The cache holds exactly the 256 most recently touched keys, in recency order,
  // each with the value of its last touch.
  lemma {:induction false} CacheIsRecent(ops: seq<Op>)
    ensures Run(ops) == Suffix(Recency(Touches(ops)), CACHE_LIMIT)
  {
    hide Suffix, Touch, Lookup;
    if ops == [] {
      EmptySuffix(CACHE_LIMIT);
    } else {
      var earlier, op := ops[..|ops| - 1], ops[|ops| - 1];
      CacheIsRecent(earlier);
      var m, u := Run(earlier), Recency(Touches(earlier));
      RunBounded(earlier);
      var hit := Lookup(m, op.key);
      if op.Set? || hit.Some? {
        var value := if op.Set? then op.value else hit.value;
        assert (Touches(earlier) + [Entry(op.key, value)])[..|Touches(earlier)|] == Touches(earlier);
        TouchThenSuffix(u, op.key, value, CACHE_LIMIT);
        if op.Get? {
          GetIsTouch(m, op.key, value);
        }
      }
    }
  }

  lemma {:induction false} RunBounded(ops: seq<Op>)
    ensures |Run(ops)| <= CACHE_LIMIT
  {
    if ops != [] {
      RunBounded(ops[..|ops| - 1]);
      LookupShrinks(Run(ops[..|ops| - 1]), ops[|ops| - 1].key);
    }
  }

  // ---- Recency means what it says ----

  // One past the position of the last touch of a key; zero when it never was.
  function LastTouch(touches: seq<Entry>, key: string): nat {
    if touches == [] then 0
    else if touches[|touches| - 1].key == key then |touches|
    else LastTouch(touches[..|touches| - 1], key)
  }

  ghost predicate Ascends(u: seq<Entry>, touches: seq<Entry>) {
    forall i, j | 0 <= i < j < |u| :: LastTouch(touches, u[i].key) < LastTouch(touches, u[j].key)
  }

  ghost predicate AllBelow(u: seq<Entry>, touches: seq<Entry>, bound: nat) {
    forall i | 0 <= i < |u| :: 0 < LastTouch(touches, u[i].key) < bound
  }

  // Exactly the keys ever touched, each once, in the order of their last touches.
  ghost predicate ByLastTouch(u: seq<Entry>, touches: seq<Entry>) {
    && IsMap(u) && Ascends(u, touches)
    && (forall k :: LastTouch(touches, k) > 0 <==> Has(u, k))
  }

  lemma {:induction false} LastTouchBound(touches: seq<Entry>, key: string)
    ensures LastTouch(touches, key) <= |touches|
    ensures LastTouch(touches, key) > 0 <==> Lookup(touches, key).Some?
  {
    if touches != [] {
      LastTouchBound(touches[..|touches| - 1], key);
    }
  }

  lemma {:induction false} DeleteBelow(u: seq<Entry>, touches: seq<Entry>, key: string, bound: nat)
    requires AllBelow(u, touches, bound)
    ensures AllBelow(Delete(u, key), touches, bound)
  {
    if u != [] && u[|u| - 1].key != key {
      DeleteBelow(u[..|u| - 1], touches, key, bound);
    }
  }

  lemma AscendsSnoc(u: seq<Entry>, last: Entry, touches: seq<Entry>)
    requires AllBelow(u, touches, |touches| + 1)
    ensures Ascends(u + [last], touches) <==> Ascends(u, touches) && AllBelow(u, touches, LastTouch(touches, last.key))
  {
    var r := u + [last];
    assert r[|u|] == last && forall i | 0 <= i < |u| :: r[i] == u[i];
    if Ascends(r, touches) {
      forall i | 0 <= i < |u| ensures LastTouch(touches, u[i].key) < LastTouch(touches, last.key) {
        assert LastTouch(touches, r[i].key) < LastTouch(touches, r[|u|].key);
      }
    }
  }

  lemma {:induction false} DeleteAscends(u: seq<Entry>, touches: seq<Entry>, key: string)
    requires Ascends(u, touches) && AllBelow(u, touches, |touches| + 1)
    ensures Ascends(Delete(u, key), touches)
  {
    hide Ascends;
    if u == [] {
      assert Delete(u, key) == u;
    } else {
      var init, last := u[..|u| - 1], u[|u| - 1];
      assert u == init + [last];
      AscendsSnoc(init, last, touches);
      if last.key != key {
        DeleteAscends(init, touches, key);
        DeleteBelow(init, touches, key, LastTouch(touches, last.key));
        DeleteBelow(init, touches, key, |touches| + 1);
        AscendsSnoc(Delete(init, key), last, touches);
      }
    }
  }

  lemma {:induction false} RecencyMeansLastTouch(touches: seq<Entry>)
    ensures ByLastTouch(Recency(touches), touches)
    ensures AllBelow(Recency(touches), touches, |touches| + 1)
  {
    if touches == [] {
      EmptyIsMap();
    } else {
      RecencyMeansLastTouch(touches[..|touches| - 1]);
      TouchMeansLastTouch(Recency(touches[..|touches| - 1]), touches);
    }
  }

  lemma TouchMeansLastTouch(u: seq<Entry>, touches: seq<Entry>)
    requires touches != [] && ByLastTouch(u, touches[..|touches| - 1])
    requires AllBelow(u, touches[..|touches| - 1], |touches|)
    ensures
      var e := touches[|touches| - 1];
      ByLastTouch(Touch(u, e.key, e.value), touches) && AllBelow(Touch(u, e.key, e.value), touches, |touches| + 1)
  {
    hide Has, IsMap, Ascends, Delete;
    var earlier, e := touches[..|touches| - 1], touches[|touches| - 1];
    var d := Delete(u, e.key);
    TouchIsMap(u, e.key, e.value);
    DeleteAscends(u, earlier, e.key);
    DeleteBelow(u, earlier, e.key, |touches|);
    forall i | 0 <= i < |d| ensures d[i].key != e.key {
      DeleteHas(u, e.key, d[i].key);
      HasAt(d, i);
    }
    SameLastTouch(d, touches);
    AscendsSnoc(d, e, touches);
    assert Entry(e.key, e.value) == e;
    forall k ensures LastTouch(touches, k) > 0 <==> Has(d + [e], k) {
      HasSnoc(d, e, k);
      DeleteHas(u, e.key, k);
    }
  }

  // A touch of one key moves no other's last touch.
  lemma SameLastTouch(d: seq<Entry>, touches: seq<Entry>)
    requires touches != [] && forall i | 0 <= i < |d| :: d[i].key != touches[|touches| - 1].key
    requires Ascends(d, touches[..|touches| - 1]) && AllBelow(d, touches[..|touches| - 1], |touches|)
    ensures Ascends(d, touches) && AllBelow(d, touches, |touches|)
  {
    forall i | 0 <= i < |d| ensures LastTouch(touches, d[i].key) == LastTouch(touches[..|touches| - 1], d[i].key) {
    }
  }

  lemma HasAt(m: seq<Entry>, i: nat)
    requires i < |m|
    ensures Has(m, m[i].key)
  {
  }

  lemma EmptyIsMap()
    ensures IsMap([])
  {
  }

  lemma {:induction false} DeleteLookup(u: seq<Entry>, key: string, k: string)
    requires k != key
    ensures Lookup(Delete(u, key), k) == Lookup(u, k)
  {
    if u != [] && u[|u| - 1].key != key {
      DeleteLookup(u[..|u| - 1], key, k);
    }
  }

  lemma {:induction false} RecencyLookup(touches: seq<Entry>, k: string)
    ensures Lookup(Recency(touches), k) == Lookup(touches, k)
  {
    if touches != [] {
      var earlier, e := touches[..|touches| - 1], touches[|touches| - 1];
      RecencyLookup(earlier, k);
      if k != e.key {
        DeleteLookup(Recency(earlier), e.key, k);
      }
    }
  }

  lemma {:induction false} LookupHas(m: seq<Entry>, key: string)
    ensures Lookup(m, key).Some? <==> Has(m, key)
  {
    hide Has;
    if m == [] {
      NoneHas(key);
    } else {
      LookupHas(m[..|m| - 1], key);
      assert m == m[..|m| - 1] + [m[|m| - 1]];
      HasSnoc(m[..|m| - 1], m[|m| - 1], key);
    }
  }

  // A get hits exactly when fewer than 256 other keys have been touched since its
  // key was, and then answers with what that key was last set to.
  lemma HitIffRecent(ops: seq<Op>, i: nat)
    requires i < |Recency(Touches(ops))|
    ensures
      var u := Recency(Touches(ops));
      && (Lookup(Run(ops), u[i].key).Some? <==> |u| - 1 - i < CACHE_LIMIT)
      && (Lookup(Run(ops), u[i].key).Some? ==> Lookup(Run(ops), u[i].key) == Lookup(Touches(ops), u[i].key))
  {
    hide Recency, Lookup, Run, Touches;
    var u := Recency(Touches(ops));
    CacheIsRecent(ops);
    RecencyMeansLastTouch(Touches(ops));
    RecencyLookup(Touches(ops), u[i].key);
    LookupHas(Run(ops), u[i].key);
    var c := Suffix(u, CACHE_LIMIT);
    if |u| - 1 - i < CACHE_LIMIT {
      assert c[i - (|u| - |c|)] == u[i];
    }
    if Lookup(c, u[i].key).Some? {
      LookupSuffix(u, u[i].key, CACHE_LIMIT);
    }
  }

  lemma UntouchedMisses(ops: seq<Op>, key: string)
    requires LastTouch(Touches(ops), key) == 0
    ensures Lookup(Run(ops), key).None?
  {
    CacheIsRecent(ops);
    RecencyLookup(Touches(ops), key);
    LastTouchBound(Touches(ops), key);
    if Lookup(Run(ops), key).Some? {
      LookupSuffix(Recency(Touches(ops)), key, CACHE_LIMIT);
    }
  }

  // ---- Keys: a url and up to three colours ----

  datatype Rgb = Rgb(r: nat, g: nat, b: nat)
  datatype Slots = Slots(color1: Option<Rgb>, color2: Option<Rgb>, color3: Option<Rgb>)

  function Colour(c: Option<Rgb>): string {
    match c
    case None => "_"
    case Some(Rgb(r, g, b)) => Digits(r) + "," + Digits(g) + "," + Digits(b)
  }

  function CacheKey(url: string, slots: Slots): string {
    url + "|" + Colour(slots.color1) + "|" + Colour(slots.color2) + "|" + Colour(slots.color3)
  }

  lemma DigitsAvoid(n: nat, c: char)
    requires !IsDigit(c)
    ensures c !in Digits(n) && Digits(n) != ""
  {
    DigitsRoundTrip(n);
  }

  lemma ColourAvoidsBar(c: Option<Rgb>)
    ensures '|' !in Colour(c)
  {
    if c.Some? {
      DigitsAvoid(c.value.r, '|');
      DigitsAvoid(c.value.g, '|');
      DigitsAvoid(c.value.b, '|');
    }
  }

  lemma DigitsInjective(m: nat, n: nat)
    requires Digits(m) == Digits(n)
    ensures m == n
  {
    DigitsRoundTrip(m);
    DigitsRoundTrip(n);
  }

  lemma ColourInjective(c: Option<Rgb>, d: Option<Rgb>)
    requires Colour(c) == Colour(d)
    ensures c == d
  {
    hide Digits;
    if c.Some? {
      ColourIsNotBlank(c.value);
    }
    if d.Some? {
      ColourIsNotBlank(d.value);
    }
    if c.Some? && d.Some? {
      var Rgb(r, g, b) := c.value;
      var Rgb(r', g', b') := d.value;
      DigitsAvoid(b, ',');
      DigitsAvoid(b', ',');
      SplitLast(Digits(r) + "," + Digits(g), Digits(b), Digits(r') + "," + Digits(g'), Digits(b'), ',');
      DigitsAvoid(g, ',');
      DigitsAvoid(g', ',');
      SplitLast(Digits(r), Digits(g), Digits(r'), Digits(g'), ',');
      DigitsInjective(r, r');
      DigitsInjective(g, g');
      DigitsInjective(b, b');
    }
  }

  lemma ColourIsNotBlank(c: Rgb)
    ensures Colour(Some(c)) != "_"
  {
    DigitsAvoid(c.r, '_');
    assert Colour(Some(c))[|Digits(c.r)|] == ',';
  }

  // No two requests share a key, whatever bars and underscores the urls contain.
  lemma CacheKeyInjective(u: string, s: Slots, v: string, t: Slots)
    requires CacheKey(u, s) == CacheKey(v, t)
    ensures u == v && s == t
  {
    hide Colour;
    ColourAvoidsBar(s.color1);
    ColourAvoidsBar(s.color2);
    ColourAvoidsBar(s.color3);
    ColourAvoidsBar(t.color1);
    ColourAvoidsBar(t.color2);
    ColourAvoidsBar(t.color3);
    var a1, b1 := u + "|" + Colour(s.color1), v + "|" + Colour(t.color1);
    SplitLast(a1 + "|" + Colour(s.color2), Colour(s.color3), b1 + "|" + Colour(t.color2), Colour(t.color3), '|');
    SplitLast(a1, Colour(s.color2), b1, Colour(t.color2), '|');
    SplitLast(u, Colour(s.color1), v, Colour(t.color1), '|');
    ColourInjective(s.color1, t.color1);
    ColourInjective(s.color2, t.color2);
    ColourInjective(s.color3, t.color3);
  }

  // ---- A hit is the recolouring that was asked for ----

  datatype Request = Request(url: string, slots: Slots)

  function KeyOf(q: Request): string {
    CacheKey(q.url, q.slots)
  }

  // Every entry set is some request's key with that request's recolouring.
  ghost predicate Honest(e: Entry, recoloured: Request -> string) {
    exists q :: e.key == KeyOf(q) && e.value == recoloured(q)
  }

  lemma {:induction false} TouchesHonest(ops: seq<Op>, recoloured: Request -> string)
    requires forall i | 0 <= i < |ops| && ops[i].Set? :: Honest(Entry(ops[i].key, ops[i].value), recoloured)
    ensures forall i | 0 <= i < |Touches(ops)| :: Honest(Touches(ops)[i], recoloured)
  {
    hide Honest;
    if ops != [] {
      var earlier, op := ops[..|ops| - 1], ops[|ops| - 1];
      TouchesHonest(earlier, recoloured);
      if op.Get? && Lookup(Run(earlier), op.key).Some? {
        CacheIsRecent(earlier);
        LookupSuffix(Recency(Touches(earlier)), op.key, CACHE_LIMIT);
        RecencyLookup(Touches(earlier), op.key);
        LookupHonest(Touches(earlier), op.key, recoloured);
      }
    }
  }

  lemma {:induction false} LookupHonest(m: seq<Entry>, key: string, recoloured: Request -> string)
    requires forall i | 0 <= i < |m| :: Honest(m[i], recoloured)
    ensures Lookup(m, key).Some? ==> Honest(Entry(key, Lookup(m, key).value), recoloured)
  {
    hide Honest;
    if m != [] {
      LookupHonest(m[..|m| - 1], key, recoloured);
      assert m[|m| - 1] == Entry(m[|m| - 1].key, m[|m| - 1].value);
    }
  }

  lemma HitIsCorrect(ops: seq<Op>, q: Request, recoloured: Request -> string)
    requires forall i | 0 <= i < |ops| && ops[i].Set? :: Honest(Entry(ops[i].key, ops[i].value), recoloured)
    requires Lookup(Run(ops), KeyOf(q)).Some?
    ensures Lookup(Run(ops), KeyOf(q)).value == recoloured(q)
  {
    TouchesHonest(ops, recoloured);
    CacheIsRecent(ops);
    LookupSuffix(Recency(Touches(ops)), KeyOf(q), CACHE_LIMIT);
    RecencyLookup(Touches(ops), KeyOf(q));
    LookupHonest(Touches(ops), KeyOf(q), recoloured);
    var value := Lookup(Run(ops), KeyOf(q)).value;
    var p :| KeyOf(q) == KeyOf(p) && value == recoloured(p);
    CacheKeyInjective(q.url, q.slots, p.url, p.slots);
  }
}
