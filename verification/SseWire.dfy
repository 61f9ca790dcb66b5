/** The text/event-stream the server prints, and the parser that reads it, per
    sections 9.2.5 and 9.2.6 of the WHATWG HTML standard. */
module SseWire {
  import opened Options
  import opened Text

  // ---- json.dumps(event, separators=(",", ":")), without floats ----

  datatype Json =
    | JNull
    | JBool(b: bool)
    | JInt(n: int)
    | JString(s: string)
    | JArray(items: seq<Json>)
    | JObject(fields: seq<Member>)

  datatype Member = Member(name: string, value: Json)

  const HEX := "0123456789abcdef"

  function Hex4(n: nat): string
    requires n < 0x10000
  {
    [HEX[n / 4096], HEX[n / 256 % 16], HEX[n / 16 % 16], HEX[n % 16]]
  }

  // ensure_ascii: everything outside printable ASCII is escaped, astral characters
  // as a surrogate pair.
  function Escape(c: char): string {
    var n := c as int;
    if c == '"' then "\\\""
    else if c == '\\' then "\\\\"
    else if c == '\n' then "\\n"
    else if c == '\r' then "\\r"
    else if c == '\t' then "\\t"
    else if n == 8 then "\\b"
    else if n == 12 then "\\f"
    else if 0x20 <= n < 0x7f then [c]
    else if n < 0x10000 then "\\u" + Hex4(n)
    else
      var m := n - 0x10000;
      "\\u" + Hex4(0xd800 + m / 0x400) + "\\u" + Hex4(0xdc00 + m % 0x400)
  }

  function EscapeAll(s: string): string {
    if s == "" then "" else EscapeAll(s[..|s| - 1]) + Escape(s[|s| - 1])
  }

  function Quote(s: string): string {
    "\"" + EscapeAll(s) + "\""
  }

  function Number(n: int): string {
    if n < 0 then "-" + Digits(-n) else Digits(n)
  }

  function Dumps(v: Json): string
    decreases v, 1
  {
    match v
    case JNull => "null"
    case JBool(b) => if b then "true" else "false"
    case JInt(n) => Number(n)
    case JString(s) => Quote(s)
    case JArray(items) => "[" + DumpItems(items) + "]"
    case JObject(fields) => "{" + DumpFields(fields) + "}"
  }

  function DumpItems(items: seq<Json>): string
    decreases items, 0
  {
    if items == [] then ""
    else Dumps(items[0]) + (if |items| == 1 then "" else ",") + DumpItems(items[1..])
  }

  function DumpFields(fields: seq<Member>): string
    decreases fields, 0
  {
    if fields == [] then ""
    else
      Quote(fields[0].name) + ":" + Dumps(fields[0].value) + (if |fields| == 1 then "" else ",") + DumpFields(fields[1..])
  }

  predicate Printable(s: string) {
    forall i | 0 <= i < |s| :: ' ' <= s[i] <= '~'
  }

  lemma Hex4Printable(n: nat)
    requires n < 0x10000
    ensures Printable(Hex4(n))
  {
    assert forall i | 0 <= i < 16 :: ' ' <= HEX[i] <= '~';
  }

  lemma EscapePrintable(c: char)
    ensures Printable(Escape(c))
  {
    hide Hex4;
    var n := c as int;
    if n < 0x10000 {
      Hex4Printable(n);
    } else {
      var m := n - 0x10000;
      Hex4Printable(0xd800 + m / 0x400);
      Hex4Printable(0xdc00 + m % 0x400);
    }
  }

  lemma {:induction false} EscapeAllPrintable(s: string)
    ensures Printable(EscapeAll(s))
  {
    hide Escape;
    if s != "" {
      EscapeAllPrintable(s[..|s| - 1]);
      EscapePrintable(s[|s| - 1]);
    }
  }

  // Whatever the event holds, its text is one line of printable ASCII.
  lemma {:induction false} DumpsPrintable(v: Json)
    ensures Printable(Dumps(v))
    decreases v, 1
  {
    hide EscapeAll, Digits, DumpItems, DumpFields;
    match v
    case JNull =>
    case JBool(_) =>
    case JInt(n) => DigitsRoundTrip(if n < 0 then -n else n);
    case JString(s) => EscapeAllPrintable(s);
    case JArray(items) => DumpItemsPrintable(items);
    case JObject(fields) => DumpFieldsPrintable(fields);
  }

  lemma {:induction false} DumpItemsPrintable(items: seq<Json>)
    ensures Printable(DumpItems(items))
    decreases items, 0
  {
    if items != [] {
      DumpsPrintable(items[0]);
      DumpItemsPrintable(items[1..]);
    }
  }

  lemma {:induction false} DumpFieldsPrintable(fields: seq<Member>)
    ensures Printable(DumpFields(fields))
    decreases fields, 0
  {
    hide EscapeAll, Dumps;
    if fields != [] {
      EscapeAllPrintable(fields[0].name);
      DumpsPrintable(fields[0].value);
      DumpFieldsPrintable(fields[1..]);
    }
  }

  // ---- What the server yields ----

  datatype Chunk = Connected | Ping | Data(event: Json)

  function FormatSse(event: Json): string {
    "data: " + Dumps(event) + "\n\n"
  }

  function Render(chunk: Chunk): string {
    match chunk
    case Connected => ": chronicler-sse-connected\n\n"
    case Ping => ": ping\n\n"
    case Data(event) => FormatSse(event)
  }

  function RenderAll(chunks: seq<Chunk>): string {
    if chunks == [] then "" else RenderAll(chunks[..|chunks| - 1]) + Render(chunks[|chunks| - 1])
  }

  // ---- What the browser makes of it ----

  datatype Message = Message(kind: string, data: string, lastEventId: string)

  // The parser between two characters. A line feed after a carriage return belongs to
  // the same line ending.
  datatype Parser = Parser(
    line: string, afterCr: bool, data: string, kind: string, lastEventId: string, retryMs: Option<nat>,
    out: seq<Message>)

  const FRESH := Parser("", false, "", "", "", None, [])

  function Colon(line: string): (i: nat)
    ensures i <= |line| && (i < |line| ==> line[i] == ':') && forall j | 0 <= j < i :: line[j] != ':'
  {
    if line == "" || line[0] == ':' then 0 else 1 + Colon(line[1..])
  }

  function Dispatch(p: Parser): Parser {
    if p.data == "" then p.(kind := "")
    else
      var data := if p.data[|p.data| - 1] == '\n' then p.data[..|p.data| - 1] else p.data;
      p.(data := "", kind := "",
         out := p.out + [Message(if p.kind == "" then "message" else p.kind, data, p.lastEventId)])
  }

  function Field(p: Parser, name: string, value: string): Parser {
    if name == "event" then p.(kind := value)
    else if name == "data" then p.(data := p.data + value + "\n")
    else if name == "id" then if '\0' in value then p else p.(lastEventId := value)
    else if name == "retry" then if AllDigits(value) then p.(retryMs := Some(NumberOf(value))) else p
    else p
  }

  function Line(p: Parser, line: string): Parser {
    if line == "" then Dispatch(p)
    else if line[0] == ':' then p
    else
      var i := Colon(line);
      if i == |line| then Field(p, line, "")
      else
        var value := line[i + 1..];
        Field(p, line[..i], if value != "" && value[0] == ' ' then value[1..] else value)
  }

  function Feed(p: Parser, c: char): Parser {
    if c == '\n' then
      if p.afterCr then p.(afterCr := false) else Line(p.(line := ""), p.line)
    else if c == '\r' then Line(p.(line := "", afterCr := true), p.line)
    else p.(line := p.line + [c], afterCr := false)
  }

  function FeedAll(p: Parser, s: string): Parser {
    if s == "" then p else Feed(FeedAll(p, s[..|s| - 1]), s[|s| - 1])
  }

  // The whole stream: one leading byte order mark is dropped, and an event that no
  // blank line has closed by the end is discarded.
  function Parse(stream: string): seq<Message> {
    FeedAll(FRESH, if stream != "" && stream[0] == '\U{FEFF}' then stream[1..] else stream).out
  }

  // However the stream is cut into pieces, the parser ends in the same state.
  lemma {:induction false} FeedConcat(p: Parser, a: string, b: string)
    ensures FeedAll(p, a + b) == FeedAll(FeedAll(p, a), b)
  {
    hide Feed;
    if b == "" {
      assert a + b == a;
    } else {
      FeedConcat(p, a, b[..|b| - 1]);
      assert (a + b)[..|a + b| - 1] == a + b[..|b| - 1];
    }
  }

  // Text without line endings only extends the current line.
  lemma {:induction false} FeedText(p: Parser, s: string)
    requires Printable(s) && !p.afterCr
    ensures FeedAll(p, s) == p.(line := p.line + s)
  {
    if s != "" {
      FeedText(p, s[..|s| - 1]);
      assert p.line + s == (p.line + s[..|s| - 1]) + [s[|s| - 1]];
    }
  }

  // Between frames.
  predicate Idle(p: Parser) {
    p.line == "" && !p.afterCr && p.data == "" && p.kind == "" && p.lastEventId == ""
  }

  lemma FeedFrame(p: Parser, line: string)
    requires Idle(p) && Printable(line)
    ensures FeedAll(p, line + "\n\n") == Dispatch(Line(p, line))
  {
    var p1 := FeedAll(p, line);
    FeedText(p, line);
    assert "" + line == line;
    FeedConcat(p, line, "\n\n");
    FeedConcat(p1, "\n", "\n");
    assert "\n" + "\n" == "\n\n" && "\n"[..0] == "";
    var p2 := Feed(p1, '\n');
    assert FeedAll(p1, "\n") == p2 && FeedAll(p2, "\n") == Feed(p2, '\n');
    LineLeavesRest(p, line);
  }

  lemma LineLeavesRest(p: Parser, line: string)
    requires p.line == "" && !p.afterCr
    ensures Line(p, line).line == "" && !Line(p, line).afterCr
  {
  }

  // One frame: a comment leaves no trace, a data frame delivers one message.
  lemma FeedChunk(p: Parser, chunk: Chunk)
    requires Idle(p)
    ensures
      FeedAll(p, Render(chunk)) ==
        if chunk.Data? then p.(out := p.out + [Message("message", Dumps(chunk.event), "")]) else p
  {
    match chunk
    case Connected =>
      assert Render(chunk) == ": chronicler-sse-connected" + "\n\n";
      FeedFrame(p, ": chronicler-sse-connected");
    case Ping =>
      assert Render(chunk) == ": ping" + "\n\n";
      FeedFrame(p, ": ping");
    case Data(event) =>
      var text := Dumps(event);
      var line := "data: " + text;
      DumpsPrintable(event);
      assert Render(chunk) == line + "\n\n";
      FeedFrame(p, line);
      DataLine(p, text);
  }

  lemma DataLine(p: Parser, text: string)
    requires Idle(p)
    ensures Dispatch(Line(p, "data: " + text)) == p.(out := p.out + [Message("message", text, "")])
  {
    var line := "data: " + text;
    assert line[4] == ':' && line[..4] == "data" && line[5] == ' ';
    assert line[0] == 'd' && line[1] == 'a' && line[2] == 't' && line[3] == 'a';
    assert Colon(line) == 4;
    assert line[5..][1..] == text;
    var p1 := Line(p, line);
    assert p1 == p.(data := "" + text + "\n");
    assert p1.data[..|p1.data| - 1] == text;
  }

  function Events(chunks: seq<Chunk>): seq<Json> {
    if chunks == [] then []
    else
      Events(chunks[..|chunks| - 1])
      + if chunks[|chunks| - 1].Data? then [chunks[|chunks| - 1].event] else []
  }

  function Messages(events: seq<Json>): seq<Message> {
    seq(|events|, i requires 0 <= i < |events| => Message("message", Dumps(events[i]), ""))
  }

  lemma {:induction false} FeedChunks(chunks: seq<Chunk>)
    ensures FeedAll(FRESH, RenderAll(chunks)) == FRESH.(out := Messages(Events(chunks)))
  {
    if chunks == [] {
      assert Messages([]) == [];
    } else {
      var earlier, last := chunks[..|chunks| - 1], chunks[|chunks| - 1];
      FeedChunks(earlier);
      FeedConcat(FRESH, RenderAll(earlier), Render(last));
      FeedChunk(FeedAll(FRESH, RenderAll(earlier)), last);
      if last.Data? {
        assert Messages(Events(chunks)) == Messages(Events(earlier)) + [Message("message", Dumps(last.event), "")];
      } else {
        assert Events(chunks) == Events(earlier);
      }
    }
  }

  // Wire round trip: the browser delivers exactly the events printed, in order, each
  // as one unnamed message carrying its JSON text; comments and pings deliver nothing.
  lemma WireRoundTrip(chunks: seq<Chunk>)
    ensures Parse(RenderAll(chunks)) == Messages(Events(chunks))
  {
    FeedChunks(chunks);
    NoByteOrderMark(chunks);
  }

  lemma {:induction false} NoByteOrderMark(chunks: seq<Chunk>)
    ensures RenderAll(chunks) != "" ==> RenderAll(chunks)[0] == ':' || RenderAll(chunks)[0] == 'd'
  {
    if chunks != [] {
      NoByteOrderMark(chunks[..|chunks| - 1]);
    }
  }
}
