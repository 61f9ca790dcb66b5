/** The printed text of an event determines the event. Every lemma is about a text and
    what follows it, so that values can be read off one after the other. */
module JsonText {
  import opened SseWire
  import opened Text

  // ---- Strings ----

  lemma HexDetermines(i: nat, j: nat)
    requires i < 16 && j < 16 && HEX[i] == HEX[j]
    ensures i == j
  {
    assert forall k | 0 <= k < 10 :: HEX[k] as int == '0' as int + k;
    assert forall k | 10 <= k < 16 :: HEX[k] as int == 'a' as int + k - 10;
  }

  lemma Nibbles(n: nat)
    ensures n == 16 * (16 * (16 * (n / 4096) + n / 256 % 16) + n / 16 % 16) + n % 16
  {
    assert n / 256 == n / 16 / 16 && n / 4096 == n / 256 / 16;
  }

  lemma Hex4Determines(n: nat, m: nat)
    requires n < 0x10000 && m < 0x10000 && Hex4(n) == Hex4(m)
    ensures n == m
  {
    var s, t := Hex4(n), Hex4(m);
    assert n / 4096 < 16 && m / 4096 < 16;
    assert s[0] == t[0] && s[1] == t[1] && s[2] == t[2] && s[3] == t[3];
    HexDetermines(n / 4096, m / 4096);
    HexDetermines(n / 256 % 16, m / 256 % 16);
    HexDetermines(n / 16 % 16, m / 16 % 16);
    HexDetermines(n % 16, m % 16);
    Nibbles(n);
    Nibbles(m);
  }

  // The UTF-16 code units of a character.
  function Units(c: char): (u: seq<nat>)
    ensures forall i | 0 <= i < |u| :: u[i] < 0x10000
  {
    var n := c as int;
    if n < 0x10000 then [n] else [0xd800 + (n - 0x10000) / 0x400, 0xdc00 + (n - 0x10000) % 0x400]
  }

  predicate Unescaped(c: char) {
    0x20 <= c as int < 0x7f && c != '"' && c != '\\'
  }

  predicate Short(c: char) {
    c == '"' || c == '\\' || c == '\n' || c == '\r' || c == '\t' || c as int == 8 || c as int == 12
  }

  function Letter(c: char): char
    requires Short(c)
  {
    if c == '\n' then 'n'
    else if c == '\r' then 'r'
    else if c == '\t' then 't'
    else if c as int == 8 then 'b'
    else if c as int == 12 then 'f'
    else c
  }

  function Unit(u: nat): string
    requires u < 0x10000
  {
    "\\u" + Hex4(u)
  }

  // What the code prints for a character, case by case.
  lemma EscapeForm(c: char)
    ensures Unescaped(c) ==> Escape(c) == [c]
    ensures Short(c) ==> Escape(c) == ['\\', Letter(c)]
    ensures !Unescaped(c) && !Short(c) ==>
      Escape(c) == Unit(Units(c)[0]) + if |Units(c)| == 1 then "" else Unit(Units(c)[1])
  {
    hide Hex4;
    var n := c as int;
    if n >= 0x10000 {
      var m := n - 0x10000;
      assert Units(c) == [0xd800 + m / 0x400, 0xdc00 + m % 0x400];
    }
  }

  lemma UnitsDetermine(c: char, d: char)
    requires Units(c)[0] == Units(d)[0]
    ensures |Units(c)| == |Units(d)|
    ensures Units(c) == Units(d) ==> c == d
  {
  }

  lemma UnitDetermines(u: nat, v: nat, x: string, y: string)
    requires u < 0x10000 && v < 0x10000 && Unit(u) + x == Unit(v) + y
    ensures u == v && x == y
  {
    var s, t := Unit(u) + x, Unit(v) + y;
    assert s[2..6] == Hex4(u) && t[2..6] == Hex4(v);
    assert s[6..] == x && t[6..] == y;
    Hex4Determines(u, v);
  }

  lemma LongDetermines(c: char, d: char, x: string, y: string)
    requires !Unescaped(c) && !Short(c) && !Unescaped(d) && !Short(d)
    requires Escape(c) + x == Escape(d) + y
    ensures c == d && x == y
  {
    hide Escape, Unit;
    EscapeForm(c);
    EscapeForm(d);
    var u, v := Units(c), Units(d);
    var x1 := if |u| == 1 then x else Unit(u[1]) + x;
    var y1 := if |v| == 1 then y else Unit(v[1]) + y;
    assert Escape(c) + x == Unit(u[0]) + x1;
    assert Escape(d) + y == Unit(v[0]) + y1;
    UnitDetermines(u[0], v[0], x1, y1);
    UnitsDetermine(c, d);
    if |u| == 2 {
      UnitDetermines(u[1], v[1], x, y);
      assert u == v;
    }
  }

  // No escape is the beginning of another.
  lemma EscapeDetermines(c: char, d: char, x: string, y: string)
    requires Escape(c) + x == Escape(d) + y
    ensures c == d && x == y
  {
    hide Escape, Hex4;
    var s, t := Escape(c) + x, Escape(d) + y;
    EscapeForm(c);
    EscapeForm(d);
    if Unescaped(c) || Unescaped(d) {
      assert s[0] == t[0];
      assert s[1..] == x && t[1..] == y;
    } else if Short(c) || Short(d) {
      assert s[1] == t[1];
      assert s[2..] == x && t[2..] == y;
    } else {
      LongDetermines(c, d, x, y);
    }
  }

  lemma EscapeStart(c: char)
    ensures Escape(c) != "" && Escape(c)[0] != '"'
  {
    hide Hex4;
  }

  lemma {:induction false} EscapeAllFront(s: string)
    requires s != ""
    ensures EscapeAll(s) == Escape(s[0]) + EscapeAll(s[1..])
  {
    hide Escape;
    if |s| > 1 {
      EscapeAllFront(s[..|s| - 1]);
      assert s[1..][..|s| - 2] == s[..|s| - 1][1..];
    } else {
      assert s[..0] == "" && s[1..] == "";
    }
  }

  // The first quote that is not escaped ends the string.
  lemma {:induction false} StringDetermines(s: string, t: string, x: string, y: string)
    requires EscapeAll(s) + ("\"" + x) == EscapeAll(t) + ("\"" + y)
    ensures s == t && x == y
  {
    hide Escape, EscapeAll;
    if s != "" { EscapeAllFront(s); EscapeStart(s[0]); }
    if t != "" { EscapeAllFront(t); EscapeStart(t[0]); }
    if s != "" && t != "" {
      var x1, y1 := EscapeAll(s[1..]) + ("\"" + x), EscapeAll(t[1..]) + ("\"" + y);
      assert EscapeAll(s) + ("\"" + x) == Escape(s[0]) + x1;
      assert EscapeAll(t) + ("\"" + y) == Escape(t[0]) + y1;
      EscapeDetermines(s[0], t[0], x1, y1);
      StringDetermines(s[1..], t[1..], x, y);
      assert s == [s[0]] + s[1..] && t == [t[0]] + t[1..];
    } else {
      OneIsEmpty(s, t, x, y);
    }
  }

  lemma OneIsEmpty(s: string, t: string, x: string, y: string)
    requires EscapeAll(s) + ("\"" + x) == EscapeAll(t) + ("\"" + y)
    requires s == "" || t == ""
    ensures s == t && x == y
  {
    hide Escape;
    var a, b := EscapeAll(s) + ("\"" + x), EscapeAll(t) + ("\"" + y);
    assert a[0] == b[0];
    if s != "" { EscapeAllFront(s); EscapeStart(s[0]); }
    if t != "" { EscapeAllFront(t); EscapeStart(t[0]); }
    assert s == t == "";
    assert a[1..] == x && b[1..] == y;
  }

  // ---- Numbers ----

  // What can follow a value inside a document.
  predicate Stops(x: string) {
    x == "" || x[0] == ',' || x[0] == ']' || x[0] == '}'
  }

  lemma StopEnds(a: string, x: string)
    requires Stops(x)
    ensures |a| < |a + x| ==> !IsDigit((a + x)[|a|])
  {
    assert |a| < |a + x| ==> (a + x)[|a|] == x[0];
  }

  lemma DigitsEnd(a: string, b: string, x: string, y: string)
    requires AllDigits(b) && a + x == b + y && Stops(x)
    ensures |b| <= |a|
  {
    var s := a + x;
    StopEnds(a, x);
    assert b == s[..|b|];
    assert forall i | 0 <= i < |b| :: s[i] == b[i];
  }

  lemma DigitsDetermine(n: nat, m: nat, x: string, y: string)
    requires Digits(n) + x == Digits(m) + y && Stops(x) && Stops(y)
    ensures n == m && x == y
  {
    hide Digits, NumberOf;
    DigitsRoundTrip(n);
    DigitsRoundTrip(m);
    var a, b := Digits(n), Digits(m);
    DigitsEnd(a, b, x, y);
    DigitsEnd(b, a, y, x);
    var s, t := a + x, b + y;
    assert a == s[..|a|] && b == t[..|b|];
    assert x == s[|a|..] && y == t[|b|..];
  }

  lemma NumberSign(n: int, x: string)
    ensures |Number(n)| > 0 && ((Number(n) + x)[0] == '-' <==> n < 0)
  {
    hide Digits, NumberOf;
    DigitsRoundTrip(if n < 0 then -n else n);
  }

  lemma MinusDetermines(n: nat, m: nat, x: string, y: string)
    requires ("-" + Digits(n)) + x == ("-" + Digits(m)) + y && Stops(x) && Stops(y)
    ensures n == m && x == y
  {
    hide Digits, Stops;
    var s, t := ("-" + Digits(n)) + x, ("-" + Digits(m)) + y;
    assert s[1..] == Digits(n) + x && t[1..] == Digits(m) + y;
    DigitsDetermine(n, m, x, y);
  }

  lemma NumberDetermines(n: int, m: int, x: string, y: string)
    requires Number(n) + x == Number(m) + y && Stops(x) && Stops(y)
    ensures n == m && x == y
  {
    hide Digits, Stops;
    NumberSign(n, x);
    NumberSign(m, y);
    assert n < 0 <==> m < 0;
    if n < 0 {
      MinusDetermines(-n, -m, x, y);
    } else {
      DigitsDetermine(n, m, x, y);
    }
  }

  // ---- Values ----

  // The first character tells what kind of value follows.
  predicate Begins(v: Json, c: char) {
    match v
    case JNull => c == 'n'
    case JBool(b) => c == if b then 't' else 'f'
    case JInt(n) => if n < 0 then c == '-' else IsDigit(c)
    case JString(_) => c == '"'
    case JArray(_) => c == '['
    case JObject(_) => c == '{'
  }

  lemma DumpsStart(v: Json)
    ensures Dumps(v) != "" && Begins(v, Dumps(v)[0])
  {
    hide Digits, NumberOf, EscapeAll, DumpItems, DumpFields;
    if v.JInt? {
      DigitsRoundTrip(if v.n < 0 then -v.n else v.n);
    }
  }

  // What follows the first of some items or fields.
  function Rest(n: nat, more: string, close: char, x: string): string {
    (if n == 1 then "" else ",") + (more + ([close] + x))
  }

  lemma RestStops(n: nat, more: string, close: char, x: string)
    requires n > 0 && (n == 1 ==> more == "") && (close == ']' || close == '}')
    ensures Stops(Rest(n, more, close, x))
  {
    if n == 1 {
      assert Rest(n, more, close, x)[0] == close;
    } else {
      assert Rest(n, more, close, x)[0] == ',';
    }
  }

  lemma RestDetermines(n: nat, m: nat, a: string, b: string, close: char, x: string, y: string)
    requires n > 0 && m > 0 && (n == 1 ==> a == "") && (m == 1 ==> b == "")
    requires close == ']' || close == '}'
    requires Rest(n, a, close, x) == Rest(m, b, close, y)
    ensures n == 1 <==> m == 1
    ensures a + ([close] + x) == b + ([close] + y)
  {
    var s, t := Rest(n, a, close, x), Rest(m, b, close, y);
    assert s[0] == t[0];
    assert n == 1 <==> m == 1;
    if n == 1 {
      assert s == a + ([close] + x) && t == b + ([close] + y);
    } else {
      assert s[1..] == a + ([close] + x) && t[1..] == b + ([close] + y);
    }
  }

  // A value is determined by its text and by nothing after it.
  lemma {:induction false} DumpsDetermines(v: Json, w: Json, x: string, y: string)
    requires Dumps(v) + x == Dumps(w) + y && Stops(x) && Stops(y)
    ensures v == w && x == y
    decreases v, 2
  {
    hide Digits, EscapeAll, DumpItems, DumpFields, Number;
    var s, t := Dumps(v) + x, Dumps(w) + y;
    DumpsStart(v);
    DumpsStart(w);
    assert s[0] == t[0];
    match v {
      case JNull =>
        assert s[4..] == x && t[4..] == y;
      case JBool(b) =>
        assert w == v && s[|Dumps(v)|..] == x && t[|Dumps(v)|..] == y;
      case JInt(n) =>
        NumberDetermines(n, w.n, x, y);
      case JString(text) =>
        assert s[1..] == EscapeAll(text) + ("\"" + x) && t[1..] == EscapeAll(w.s) + ("\"" + y);
        StringDetermines(text, w.s, x, y);
      case JArray(items) =>
        assert s[1..] == DumpItems(items) + ("]" + x) && t[1..] == DumpItems(w.items) + ("]" + y);
        ItemsDetermine(items, w.items, x, y);
      case JObject(fields) =>
        assert s[1..] == DumpFields(fields) + ("}" + x) && t[1..] == DumpFields(w.fields) + ("}" + y);
        FieldsDetermine(fields, w.fields, x, y);
    }
  }

  lemma ItemsFront(items: seq<Json>, x: string)
    requires items != []
    ensures DumpItems(items) + ("]" + x) == Dumps(items[0]) + Rest(|items|, DumpItems(items[1..]), ']', x)
    ensures |items| == 1 ==> DumpItems(items[1..]) == ""
    ensures Dumps(items[0]) != "" && Dumps(items[0])[0] != ']'
  {
    hide Dumps;
    DumpsStart(items[0]);
    var first, comma, more, end := Dumps(items[0]), if |items| == 1 then "" else ",", DumpItems(items[1..]), "]" + x;
    Regroup(first, comma, more, end);
  }

  lemma Regroup(first: string, comma: string, more: string, end: string)
    ensures first + comma + more + end == first + (comma + (more + end))
  {
  }

  lemma NoItems(a: seq<Json>, b: seq<Json>, x: string, y: string)
    requires DumpItems(a) + ("]" + x) == DumpItems(b) + ("]" + y)
    requires a == [] || b == []
    ensures a == b && x == y
  {
    hide Dumps, Rest;
    var s, t := DumpItems(a) + ("]" + x), DumpItems(b) + ("]" + y);
    assert s[0] == t[0];
    if a != [] { ItemsFront(a, x); }
    if b != [] { ItemsFront(b, y); }
    assert a == b == [];
    assert s[1..] == x && t[1..] == y;
  }

  lemma {:induction false} ItemsDetermine(a: seq<Json>, b: seq<Json>, x: string, y: string)
    requires DumpItems(a) + ("]" + x) == DumpItems(b) + ("]" + y)
    ensures a == b && x == y
    decreases a, 1
  {
    hide Dumps, DumpItems, Rest;
    if a == [] || b == [] {
      NoItems(a, b, x, y);
    } else {
      var more, other := DumpItems(a[1..]), DumpItems(b[1..]);
      ItemsFront(a, x);
      ItemsFront(b, y);
      RestStops(|a|, more, ']', x);
      RestStops(|b|, other, ']', y);
      DumpsDetermines(a[0], b[0], Rest(|a|, more, ']', x), Rest(|b|, other, ']', y));
      RestDetermines(|a|, |b|, more, other, ']', x, y);
      ItemsDetermine(a[1..], b[1..], x, y);
      assert a == [a[0]] + a[1..] && b == [b[0]] + b[1..];
    }
  }

  // A field's value, with what follows it.
  function Tail(fields: seq<Member>, x: string): string
    requires fields != []
  {
    ":" + (Dumps(fields[0].value) + Rest(|fields|, DumpFields(fields[1..]), '}', x))
  }

  lemma FieldsFront(fields: seq<Member>, x: string)
    requires fields != []
    ensures DumpFields(fields) + ("}" + x) == "\"" + (EscapeAll(fields[0].name) + ("\"" + Tail(fields, x)))
    ensures |fields| == 1 ==> DumpFields(fields[1..]) == ""
  {
    hide Dumps, EscapeAll;
    var name, value := EscapeAll(fields[0].name), Dumps(fields[0].value);
    var comma, more, end := if |fields| == 1 then "" else ",", DumpFields(fields[1..]), "}" + x;
    RegroupField(name, value, comma, more, end);
    assert Tail(fields, x) == ":" + (value + (comma + (more + end)));
  }

  lemma RegroupField(name: string, value: string, comma: string, more: string, end: string)
    ensures
      ("\"" + name + "\"") + ":" + value + comma + more + end
        == "\"" + (name + ("\"" + (":" + (value + (comma + (more + end))))))
  {
  }

  lemma NoFields(a: seq<Member>, b: seq<Member>, x: string, y: string)
    requires DumpFields(a) + ("}" + x) == DumpFields(b) + ("}" + y)
    requires a == [] || b == []
    ensures a == b && x == y
  {
    hide Dumps, EscapeAll, Tail;
    var s, t := DumpFields(a) + ("}" + x), DumpFields(b) + ("}" + y);
    assert s[0] == t[0];
    if a != [] { FieldsFront(a, x); }
    if b != [] { FieldsFront(b, y); }
    assert a == b == [];
    assert s[1..] == x && t[1..] == y;
  }

  lemma {:induction false} FieldsDetermine(a: seq<Member>, b: seq<Member>, x: string, y: string)
    requires DumpFields(a) + ("}" + x) == DumpFields(b) + ("}" + y)
    ensures a == b && x == y
    decreases a, 1
  {
    hide Dumps, DumpFields, Rest, EscapeAll, Tail;
    if a == [] || b == [] {
      NoFields(a, b, x, y);
    } else {
      FieldsFront(a, x);
      FieldsFront(b, y);
      var s, t := DumpFields(a) + ("}" + x), DumpFields(b) + ("}" + y);
      assert s[1..] == EscapeAll(a[0].name) + ("\"" + Tail(a, x));
      assert t[1..] == EscapeAll(b[0].name) + ("\"" + Tail(b, y));
      StringDetermines(a[0].name, b[0].name, Tail(a, x), Tail(b, y));
      TailDetermines(a, b, x, y);
      assert a[0] == b[0];
      assert a == [a[0]] + a[1..] && b == [b[0]] + b[1..];
    }
  }

  lemma {:induction false} TailDetermines(a: seq<Member>, b: seq<Member>, x: string, y: string)
    requires a != [] && b != [] && Tail(a, x) == Tail(b, y)
    ensures a[0].value == b[0].value && a[1..] == b[1..] && x == y
    decreases a, 0
  {
    hide Dumps, DumpFields, Rest, EscapeAll;
    var more, other := DumpFields(a[1..]), DumpFields(b[1..]);
    var s, t := Tail(a, x), Tail(b, y);
    FieldsFront(a, x);
    FieldsFront(b, y);
    RestStops(|a|, more, '}', x);
    RestStops(|b|, other, '}', y);
    assert s[1..] == Dumps(a[0].value) + Rest(|a|, more, '}', x);
    assert t[1..] == Dumps(b[0].value) + Rest(|b|, other, '}', y);
    DumpsDetermines(a[0].value, b[0].value, Rest(|a|, more, '}', x), Rest(|b|, other, '}', y));
    RestDetermines(|a|, |b|, more, other, '}', x, y);
    FieldsDetermine(a[1..], b[1..], x, y);
  }

  // What a browser receives determines what was sent: two streams that are parsed into
  // the same messages carry the same events.
  lemma MessagesDetermineEvents(chunks: seq<Chunk>, others: seq<Chunk>)
    requires Parse(RenderAll(chunks)) == Parse(RenderAll(others))
    ensures Events(chunks) == Events(others)
  {
    hide Dumps, Parse, RenderAll, Events;
    WireRoundTrip(chunks);
    WireRoundTrip(others);
    var a, b := Events(chunks), Events(others);
    assert |Messages(a)| == |a| && |Messages(b)| == |b|;
    forall i | 0 <= i < |a| ensures a[i] == b[i] {
      assert Messages(a)[i] == Messages(b)[i];
      assert Dumps(a[i]) + "" == Dumps(b[i]) + "";
      DumpsDetermines(a[i], b[i], "", "");
    }
  }
}
