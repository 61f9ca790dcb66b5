/** The loop behind every event-bus SSE response: heartbeats, sliced waits, disconnect
    polls, and what a browser reads from it all. Only waiting on the queue passes
    time, and a wait that times out passes exactly its timeout. */
module EventStream {
  import opened Options
  import opened SseWire

  const HEARTBEAT_SECONDS: real := 2.0
  const SLICE_SECONDS: real := 0.5

  // The environment decides when the client goes, if it does, and for each turn of the
  // loop what reaches the queue while the turn waits.
  type Turn = Option<Arrival>
  datatype Arrival = Arrival(after: real, event: Json)

  datatype Stamped = Stamped(at: real, chunk: Chunk)

  datatype Stream = Stream(
    now: real,
    lastHeartbeat: real,
    sent: seq<Stamped>,      // yielded, with the time of each yield
    dequeued: seq<Json>,     // taken off the queue
    polls: seq<real>,        // when the client was asked after
    closed: bool)

  function Slice(elapsed: real): real {
    if SLICE_SECONDS <= HEARTBEAT_SECONDS - elapsed then SLICE_SECONDS else HEARTBEAT_SECONDS - elapsed
  }

  function Start(now: real): Stream {
    Stream(now, now, [Stamped(now, Connected)], [], [], false)
  }

  predicate InTime(turn: Turn, slice: real) {
    turn.Some? && 0.0 <= turn.value.after <= slice
  }

  predicate IsDisconnected(gone: Option<real>, now: real) {
    gone.Some? && gone.value <= now
  }

  function Advance(s: Stream, gone: Option<real>, turn: Turn): Stream {
    if s.closed then s
    else
      var s := s.(polls := s.polls + [s.now]);
      if IsDisconnected(gone, s.now) then s.(closed := true)
      else if s.now - s.lastHeartbeat >= HEARTBEAT_SECONDS then
        s.(sent := s.sent + [Stamped(s.now, Ping)], lastHeartbeat := s.now)
      else
        var slice := Slice(s.now - s.lastHeartbeat);
        if InTime(turn, slice) then
          var at := s.now + turn.value.after;
          s.(now := at, dequeued := s.dequeued + [turn.value.event],
             sent := s.sent + [Stamped(at, Data(turn.value.event))])
        else s.(now := s.now + slice)
  }

  function Serve(start: real, gone: Option<real>, turns: seq<Turn>): Stream {
    if turns == [] then Start(start)
    else Advance(Serve(start, gone, turns[..|turns| - 1]), gone, turns[|turns| - 1])
  }

  function Chunks(sent: seq<Stamped>): seq<Chunk> {
    seq(|sent|, i requires 0 <= i < |sent| => sent[i].chunk)
  }

  lemma RenderGrows(sent: seq<Stamped>, last: Stamped)
    ensures RenderAll(Chunks(sent + [last])) == RenderAll(Chunks(sent)) + Render(last.chunk)
  {
    assert Chunks(sent + [last]) == Chunks(sent) + [last.chunk];
    assert (Chunks(sent) + [last.chunk])[..|sent|] == Chunks(sent);
  }

  lemma ServeNext(start: real, gone: Option<real>, turns: seq<Turn>, i: nat)
    requires i < |turns|
    ensures Serve(start, gone, turns[..i + 1]) == Advance(Serve(start, gone, turns[..i]), gone, turns[i])
  {
    hide Advance;
    assert turns[..i + 1][..i] == turns[..i];
  }

  // The generator itself, over a script of turns.
  method EventStream(start: real, gone: Option<real>, turns: seq<Turn>) returns (s: Stream, wire: string)
    ensures s == Serve(start, gone, turns)
    ensures wire == RenderAll(Chunks(s.sent))
  {
    hide RenderAll, Render, Chunks, Serve;
    var now, lastHeartbeat := start, start;
    var sent, dequeued, polls, closed := [Stamped(start, Connected)], [], [], false;
    wire := Render(Connected);
    OpeningComment(start, gone, turns);
    for i := 0 to |turns|
      invariant Stream(now, lastHeartbeat, sent, dequeued, polls, closed) == Serve(start, gone, turns[..i])
      invariant wire == RenderAll(Chunks(sent))
      invariant !closed
    {
      ServeNext(start, gone, turns, i);
      polls := polls + [now];
      if IsDisconnected(gone, now) {
        closed := true;
        ClosedStaysClosed(start, gone, turns, i + 1);
        return Stream(now, lastHeartbeat, sent, dequeued, polls, closed), wire;
      }
      var elapsed := now - lastHeartbeat;
      if elapsed >= HEARTBEAT_SECONDS {
        RenderGrows(sent, Stamped(now, Ping));
        sent := sent + [Stamped(now, Ping)];
        wire := wire + Render(Ping);
        lastHeartbeat := now;
        continue;
      }
      var slice := Slice(elapsed);
      if InTime(turns[i], slice) {
        var Arrival(after, event) := turns[i].value;
        now := now + after;
        dequeued := dequeued + [event];
        RenderGrows(sent, Stamped(now, Data(event)));
        sent := sent + [Stamped(now, Data(event))];
        wire := wire + Render(Data(event));
      } else {
        now := now + slice;
      }
    }
    assert turns[..|turns|] == turns;
    s := Stream(now, lastHeartbeat, sent, dequeued, polls, closed);
  }

  lemma OpeningComment(start: real, gone: Option<real>, turns: seq<Turn>)
    ensures Serve(start, gone, turns[..0]) == Start(start)
    ensures RenderAll(Chunks([Stamped(start, Connected)])) == Render(Connected)
  {
    RenderGrows([], Stamped(start, Connected));
    assert [] + [Stamped(start, Connected)] == [Stamped(start, Connected)];
    assert Chunks([]) == [];
  }

  lemma {:induction false} ClosedStaysClosed(start: real, gone: Option<real>, turns: seq<Turn>, n: nat)
    requires n <= |turns| && Serve(start, gone, turns[..n]).closed
    ensures Serve(start, gone, turns) == Serve(start, gone, turns[..n])
    decreases |turns|
  {
    if n < |turns| {
      assert turns[..|turns| - 1][..n] == turns[..n];
      ClosedStaysClosed(start, gone, turns[..|turns| - 1], n);
    } else {
      assert turns[..n] == turns;
    }
  }

  // ---- Round trip ----

  lemma {:induction false} SentAreDequeued(start: real, gone: Option<real>, turns: seq<Turn>)
    ensures Events(Chunks(Serve(start, gone, turns).sent)) == Serve(start, gone, turns).dequeued
  {
    if turns == [] {
      assert Chunks(Start(start).sent) == [Connected] && [Connected][..0] == [];
    } else {
      SentAreDequeued(start, gone, turns[..|turns| - 1]);
      var s, s' := Serve(start, gone, turns[..|turns| - 1]), Serve(start, gone, turns);
      if |s'.sent| > |s.sent| {
        var last := s'.sent[|s.sent|].chunk;
        assert Chunks(s'.sent) == Chunks(s.sent) + [last];
        assert (Chunks(s.sent) + [last])[..|s.sent|] == Chunks(s.sent);
      }
    }
  }

  // However the client, the queue and the clock behave, a browser reading the stream
  // receives exactly the events taken off the queue, in order.
  lemma StreamRoundTrip(start: real, gone: Option<real>, turns: seq<Turn>)
    ensures Parse(RenderAll(Chunks(Serve(start, gone, turns).sent))) == Messages(Serve(start, gone, turns).dequeued)
  {
    SentAreDequeued(start, gone, turns);
    WireRoundTrip(Chunks(Serve(start, gone, turns).sent));
  }

  // ---- What goes out, read off the turns ----

  // From this moment on, with the last heartbeat at `beat`: nothing once the client has
  // gone, a ping when two seconds are up, else the event that comes within the slice, at
  // the time it comes.
  function Output(now: real, beat: real, gone: Option<real>, turns: seq<Turn>): seq<Stamped>
    decreases |turns|
  {
    if turns == [] || (gone.Some? && now >= gone.value) then []
    else if now >= beat + 2.0 then [Stamped(now, Ping)] + Output(now, now, gone, turns[1..])
    else
      var end := if now + 0.5 <= beat + 2.0 then now + 0.5 else beat + 2.0;
      match turns[0]
      case Some(Arrival(after, event)) =>
        if 0.0 <= after && now + after <= end
        then [Stamped(now + after, Data(event))] + Output(now + after, beat, gone, turns[1..])
        else Output(end, beat, gone, turns[1..])
      case None => Output(end, beat, gone, turns[1..])
  }

  // The events in it.
  function EventsOut(out: seq<Stamped>): seq<Json> {
    if out == [] then []
    else (if out[0].chunk.Data? then [out[0].chunk.event] else []) + EventsOut(out[1..])
  }

  function Rest(s: Stream, gone: Option<real>, turns: seq<Turn>): seq<Stamped> {
    if s.closed then [] else Output(s.now, s.lastHeartbeat, gone, turns)
  }

  // One turn puts out what the first of those left says.
  lemma AdvanceOutput(s: Stream, gone: Option<real>, turns: seq<Turn>)
    requires turns != []
    ensures s.sent + Rest(s, gone, turns) ==
      Advance(s, gone, turns[0]).sent + Rest(Advance(s, gone, turns[0]), gone, turns[1..])
  {
  }

  lemma {:induction false} ServeContinues(start: real, gone: Option<real>, turns: seq<Turn>, n: nat)
    requires n <= |turns|
    ensures Serve(start, gone, turns).sent ==
      Serve(start, gone, turns[..n]).sent + Rest(Serve(start, gone, turns[..n]), gone, turns[n..])
    decreases |turns| - n
  {
    hide Advance, Output;
    if n == |turns| {
      assert turns[..n] == turns && turns[n..] == [];
      NothingRests(Serve(start, gone, turns), gone);
    } else {
      ServeContinues(start, gone, turns, n + 1);
      ServeNext(start, gone, turns, n);
      AdvanceOutput(Serve(start, gone, turns[..n]), gone, turns[n..]);
      assert turns[n..][0] == turns[n] && turns[n..][1..] == turns[n + 1..];
    }
  }

  lemma NothingRests(s: Stream, gone: Option<real>)
    ensures s.sent + Rest(s, gone, []) == s.sent
  {
  }

  lemma {:induction false} EventsConcat(a: seq<Chunk>, b: seq<Chunk>)
    ensures Events(a + b) == Events(a) + Events(b)
  {
    if b == [] {
      assert a + b == a;
    } else {
      EventsConcat(a, b[..|b| - 1]);
      assert (a + b)[..|a + b| - 1] == a + b[..|b| - 1];
    }
  }

  lemma OneEvent(c: Chunk)
    ensures Events([c]) == if c.Data? then [c.event] else []
  {
    assert [c][..0] == [];
  }

  lemma ChunksFirst(out: seq<Stamped>)
    requires out != []
    ensures Chunks(out) == [out[0].chunk] + Chunks(out[1..])
  {
  }

  lemma NoEvents()
    ensures Events(Chunks([])) == []
  {
  }

  lemma {:induction false} EventsForward(out: seq<Stamped>)
    ensures Events(Chunks(out)) == EventsOut(out)
  {
    hide Events, Chunks;
    if out == [] {
      NoEvents();
    } else {
      EventsForward(out[1..]);
      ChunksFirst(out);
      EventsConcat([out[0].chunk], Chunks(out[1..]));
      OneEvent(out[0].chunk);
    }
  }

  // Everything the stream yields, and the messages a browser makes of it: the opening
  // comment, then what the turns say, each event at its arrival.
  lemma ServeOutput(start: real, gone: Option<real>, turns: seq<Turn>)
    ensures Serve(start, gone, turns).sent == [Stamped(start, Connected)] + Output(start, start, gone, turns)
    ensures Serve(start, gone, turns).dequeued == EventsOut(Output(start, start, gone, turns))
    ensures Parse(RenderAll(Chunks(Serve(start, gone, turns).sent)))
      == Messages(EventsOut(Output(start, start, gone, turns)))
  {
    hide Advance, Output, Parse, RenderAll, Messages;
    var out := Output(start, start, gone, turns);
    ServeContinues(start, gone, turns, 0);
    assert turns[..0] == [] && turns[0..] == turns;
    SentAreDequeued(start, gone, turns);
    StreamRoundTrip(start, gone, turns);
    EventsForward([Stamped(start, Connected)] + out);
    assert ([Stamped(start, Connected)] + out)[1..] == out;
  }

  // ---- Timing ----

  function Beats(start: real, sent: seq<Stamped>): seq<real> {
    if sent == [] then [start]
    else Beats(start, sent[..|sent| - 1]) + if sent[|sent| - 1].chunk.Ping? then [sent[|sent| - 1].at] else []
  }

  ghost predicate Beating(start: real, s: Stream) {
    var beats := Beats(start, s.sent);
    && s.lastHeartbeat <= s.now <= s.lastHeartbeat + HEARTBEAT_SECONDS
    && |beats| > 0 && s.lastHeartbeat == beats[|beats| - 1]
    && forall i | 0 <= i < |beats| :: beats[i] == start + HEARTBEAT_SECONDS * i as real
  }

  ghost predicate Polling(start: real, s: Stream) {
    && (forall i | 0 <= i < |s.polls| - 1 :: s.polls[i] <= s.polls[i + 1] <= s.polls[i] + SLICE_SECONDS)
    && (if s.polls == [] then s.now == start
        else s.polls[|s.polls| - 1] <= s.now <= s.polls[|s.polls| - 1] + SLICE_SECONDS)
  }

  lemma BeatsGrow(start: real, sent: seq<Stamped>, last: Stamped)
    ensures Beats(start, sent + [last]) == Beats(start, sent) + if last.chunk.Ping? then [last.at] else []
  {
    assert (sent + [last])[..|sent|] == sent;
  }

  lemma AdvanceBeating(start: real, s: Stream, gone: Option<real>, turn: Turn)
    requires Beating(start, s)
    ensures Beating(start, Advance(s, gone, turn))
  {
    hide Beats;
    var s' := Advance(s, gone, turn);
    if |s'.sent| > |s.sent| {
      BeatsGrow(start, s.sent, s'.sent[|s.sent|]);
      assert s'.sent == s.sent + [s'.sent[|s.sent|]];
    }
    var beats := Beats(start, s.sent);
    assert (|beats| as real) == ((|beats| - 1) as real) + 1.0;
  }

  // In every run the k-th ping goes out exactly 2k seconds after the start, so the
  // stream is never silent for longer.
  lemma {:induction false} HeartbeatsOnTime(start: real, gone: Option<real>, turns: seq<Turn>)
    ensures Beating(start, Serve(start, gone, turns))
  {
    if turns == [] {
      BeatsGrow(start, [], Stamped(start, Connected));
      assert [] + [Stamped(start, Connected)] == [Stamped(start, Connected)];
    } else {
      hide Advance, Beating;
      HeartbeatsOnTime(start, gone, turns[..|turns| - 1]);
      AdvanceBeating(start, Serve(start, gone, turns[..|turns| - 1]), gone, turns[|turns| - 1]);
    }
  }

  // The loop is closed exactly when its last poll found the client gone, and its clock
  // never passes that moment by half a second.
  ghost predicate Noticing(start: real, gone: Option<real>, s: Stream) {
    && (s.closed <==> s.polls != [] && IsDisconnected(gone, s.polls[|s.polls| - 1]))
    && (s.closed ==> s.now == s.polls[|s.polls| - 1])
    && (gone.Some? ==> s.now == start || s.now < gone.value + SLICE_SECONDS)
  }

  lemma AdvancePolling(start: real, s: Stream, gone: Option<real>, turn: Turn)
    requires Polling(start, s) && Beating(start, s)
    ensures Polling(start, Advance(s, gone, turn))
  {
    hide Beats;
  }

  lemma AdvanceNoticing(start: real, s: Stream, gone: Option<real>, turn: Turn)
    requires Noticing(start, gone, s) && Beating(start, s)
    ensures Noticing(start, gone, Advance(s, gone, turn))
  {
    hide Beats;
  }

  // The client is asked after at least every half second; once it goes, the stream is
  // closed before another half second has passed, and no stream is closed without it.
  lemma {:induction false} DisconnectNoticed(start: real, gone: Option<real>, turns: seq<Turn>)
    ensures Polling(start, Serve(start, gone, turns))
    ensures Noticing(start, gone, Serve(start, gone, turns))
  {
    hide Advance, Beating, Polling, Noticing;
    if turns == [] {
      StartPolling(start, gone);
    } else {
      var s := Serve(start, gone, turns[..|turns| - 1]);
      DisconnectNoticed(start, gone, turns[..|turns| - 1]);
      HeartbeatsOnTime(start, gone, turns[..|turns| - 1]);
      AdvancePolling(start, s, gone, turns[|turns| - 1]);
      AdvanceNoticing(start, s, gone, turns[|turns| - 1]);
    }
  }

  lemma StartPolling(start: real, gone: Option<real>)
    ensures Polling(start, Start(start)) && Noticing(start, gone, Start(start))
  {
  }
}
