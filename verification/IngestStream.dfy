/** The ingest frame reducer, the tail badge derived from its state, and the closed
    form of any run of frames. */
module IngestStream {
  import opened Options
  import opened ChannelSpec

  datatype CacheState = CacheState(pending: int, bytes: int, gcDropsLifetime: int)
  datatype Recovery = Recovery(
    persistedAt: Option<string>, date: Option<string>, generation: Option<int>, pending: int)
  datatype AutoResume = AutoResume(
    campaignId: string, campaignName: string, savePathName: string, inGameDate: Option<string>, seqNo: nat)

  // A time stamp is kept with what Date makes of it: None when it is not a string
  // or not a date.
  datatype SavePair = SavePair(saveFilename: string, completedAt: Option<int>, eventCount: int)
  datatype ForeignDrop = ForeignDrop(observedPlaythrough: string, saveFilename: string, observedAt: Option<int>)

  // One parsed frame. Unmodelled stands for any kind the reducer does not name;
  // like event_ingested it falls through to the events buffer.
  datatype Frame =
    | EventIngested(eventId: int, eventType: string, eventDate: string, characterId: Option<int>)
    | CacheStateFrame(cache: CacheState)
    | SavePairCompleted(pair: SavePair)
    | SaveDroppedForeign(drop: ForeignDrop)
    | Recovering(persistedAt: Option<string>, date: Option<string>, generation: Option<int>, pendingCount: Option<int>)
    | Recovered(eventsIngested: int)
    | AutoResumed(campaignId: string, campaignName: string, savePathName: string, inGameDate: Option<string>)
    | SaveTailStopped(stoppedAt: string)
    | Narrative(status: string, itemId: int)
    | Unmodelled(kind: string)

  datatype IngestData = IngestData(
    events: seq<Frame>,
    cacheState: Option<CacheState>,
    lastPair: Option<SavePair>,
    narrativeSeq: nat,
    recovering: Option<Recovery>,
    autoResumed: Option<AutoResume>,
    lastForeignDrop: Option<ForeignDrop>,
    cacheStateSeq: nat)

  type State = Link<IngestData>

  const EMPTY_STATE: State := Link(false, false, IngestData([], None, None, 0, None, None, None, 0))

  predicate TailAlive(frame: Frame) {
    frame.EventIngested? || frame.CacheStateFrame? || frame.SavePairCompleted? || frame.Recovering? || frame.Recovered?
  }

  predicate Buffered(frame: Frame) {
    frame.EventIngested? || frame.Unmodelled?
  }

  function OrZero(n: Option<int>): int {
    if n.Some? then n.value else 0
  }

  function Push(events: seq<Frame>, frame: Frame, bufferSize: nat): seq<Frame> {
    var buffered := [frame] + events;
    if |buffered| > bufferSize then buffered[..bufferSize] else buffered
  }

  function Reduce(state: State, frame: Frame, bufferSize: nat): State {
    var next := if state.dead && TailAlive(frame) then state.(dead := false, connected := true) else state;
    match frame
    case CacheStateFrame(cache) =>
      next.(data := next.data.(cacheState := Some(cache), cacheStateSeq := next.data.cacheStateSeq + 1))
    case SavePairCompleted(pair) => next.(data := next.data.(lastPair := Some(pair)))
    case SaveDroppedForeign(drop) => next.(data := next.data.(lastForeignDrop := Some(drop)))
    case Recovering(at, date, generation, pending) =>
      next.(data := next.data.(recovering := Some(Recovery(at, date, generation, OrZero(pending)))))
    case Recovered(_) => next.(data := next.data.(recovering := None))
    case AutoResumed(id, name, path, date) =>
      var previous := if next.data.autoResumed.Some? then next.data.autoResumed.value.seqNo else 0;
      next.(data := next.data.(autoResumed := Some(AutoResume(id, name, path, date, previous + 1))))
    case SaveTailStopped(_) => next.(connected := false, dead := true)
    case Narrative(_, _) => next.(data := next.data.(narrativeSeq := next.data.narrativeSeq + 1))
    case _ => next.(data := next.data.(events := Push(next.data.events, frame, bufferSize)))
  }

  // The hooks useEventStream gives the channel store.
  function ClearOnDead(state: State): State {
    state.(data := state.data.(cacheState := None))
  }

  datatype Snapshot = Snapshot(pending: int, bytes: int)

  // What a resync does with its answer, given the seq it read before asking.
  function Resync(state: State, seqAtRequest: nat, snapshot: Snapshot): State {
    if state.data.cacheStateSeq != seqAtRequest then state
    else
      var drops := if state.data.cacheState.Some? then state.data.cacheState.value.gcDropsLifetime else 0;
      state.(data := state.data.(cacheState := Some(CacheState(snapshot.pending, snapshot.bytes, drops))))
  }

  function IngestConfig(hasEventSource: bool): Config<IngestData, Frame, nat> {
    Config(EMPTY_STATE, 200, (s, f, n) => Reduce(s, f, n), s => ClearOnDead(s), hasEventSource)
  }

  // ---- The badge ----

  datatype TailLevel = Live | Watching | CatchingUp | WrongGame | Unavailable | Idle

  function TailStatus(state: State): TailLevel {
    if state.dead then Unavailable
    else if state.data.recovering.Some? then CatchingUp
    else
      var foreignAt := if state.data.lastForeignDrop.Some? then state.data.lastForeignDrop.value.observedAt else None;
      var tickAt := if state.data.lastPair.Some? then state.data.lastPair.value.completedAt else None;
      if foreignAt.Some? && (tickAt.None? || foreignAt.value > tickAt.value) then WrongGame
      else if state.data.lastPair.Some? then Live
      else if state.connected then Watching
      else Idle
  }

  // ---- Any run of frames, in closed form ----

  function Fold(state: State, frames: seq<Frame>, bufferSize: nat): State {
    if frames == [] then state
    else Reduce(Fold(state, frames[..|frames| - 1], bufferSize), frames[|frames| - 1], bufferSize)
  }

  // The frames satisfying p, newest first.
  function Newest(frames: seq<Frame>, p: Frame -> bool): (r: seq<Frame>)
    ensures forall i | 0 <= i < |r| :: p(r[i])
  {
    if frames == [] then []
    else
      var earlier := Newest(frames[..|frames| - 1], p);
      if p(frames[|frames| - 1]) then [frames[|frames| - 1]] + earlier else earlier
  }

  predicate IsCacheState(frame: Frame) { frame.CacheStateFrame? }
  predicate IsPair(frame: Frame) { frame.SavePairCompleted? }
  predicate IsForeign(frame: Frame) { frame.SaveDroppedForeign? }
  predicate IsNarrative(frame: Frame) { frame.Narrative? }
  predicate IsResume(frame: Frame) { frame.AutoResumed? }
  predicate IsPhase(frame: Frame) { frame.Recovering? || frame.Recovered? }
  predicate IsStop(frame: Frame) { frame.SaveTailStopped? }

  // The kinds that tell whether the tail runs.
  predicate Settles(frame: Frame) {
    || frame.EventIngested? || frame.CacheStateFrame? || frame.SavePairCompleted?
    || frame.Recovering? || frame.Recovered? || frame.SaveTailStopped?
  }

  function Cap(frames: seq<Frame>, n: nat): seq<Frame> {
    if |frames| > n then frames[..n] else frames
  }

  function SeqNo(resumed: Option<AutoResume>): nat {
    if resumed.Some? then resumed.value.seqNo else 0
  }

  // The buffer is the newest buffered frames, the counters count, and every other
  // field says what the newest frame that speaks of it said.
  ghost predicate Buffers(s0: State, frames: seq<Frame>, bufferSize: nat, s: State) {
    && s.data.events == Cap(Newest(frames, Buffered) + s0.data.events, bufferSize)
    && s.data.narrativeSeq == s0.data.narrativeSeq + |Newest(frames, IsNarrative)|
    && s.data.cacheStateSeq == s0.data.cacheStateSeq + |Newest(frames, IsCacheState)|
    && SeqNo(s.data.autoResumed) == SeqNo(s0.data.autoResumed) + |Newest(frames, IsResume)|
  }

  ghost predicate LatestTick(s0: State, frames: seq<Frame>, s: State) {
    var caches, pairs := Newest(frames, IsCacheState), Newest(frames, IsPair);
    && s.data.cacheState == (if caches == [] then s0.data.cacheState else Some(caches[0].cache))
    && s.data.lastPair == (if pairs == [] then s0.data.lastPair else Some(pairs[0].pair))
  }

  ghost predicate LatestAlarm(s0: State, frames: seq<Frame>, s: State) {
    var drops, phases := Newest(frames, IsForeign), Newest(frames, IsPhase);
    && s.data.lastForeignDrop == (if drops == [] then s0.data.lastForeignDrop else Some(drops[0].drop))
    && s.data.recovering == if phases == [] then s0.data.recovering else Window(phases[0])
  }

  // What a frame says of the recovery window: opened with these details, or closed.
  function Window(phase: Frame): Option<Recovery> {
    match phase
    case Recovering(at, date, generation, pending) =>
      Some(Recovery(at, date, generation, if pending.Some? then pending.value else 0))
    case _ => None
  }

  // The resume banner shows the newest resume, numbered by how many there have been.
  ghost predicate LatestResume(s0: State, frames: seq<Frame>, s: State) {
    var resumes := Newest(frames, IsResume);
    if resumes == [] then s.data.autoResumed == s0.data.autoResumed
    else
      var seqNo := SeqNo(s0.data.autoResumed) + |resumes|;
      s.data.autoResumed == Some(AutoResume(
        resumes[0].campaignId, resumes[0].campaignName, resumes[0].savePathName, resumes[0].inGameDate, seqNo))
  }

  // A stopped tail disconnects and marks dead; the first frame of a live one after that
  // undoes both; no other frame touches either.
  ghost predicate Connected(s0: State, frames: seq<Frame>, s: State) {
    var settling := Newest(frames, Settles);
    s.connected <==>
      if settling == [] then s0.connected
      else !settling[0].SaveTailStopped? && (s0.connected || s0.dead || Newest(frames, IsStop) != [])
  }

  // Only a frame that a live tail could have sent clears dead, and only the tail
  // stopping sets it.
  ghost predicate Settled(s0: State, frames: seq<Frame>, s: State) {
    var settling := Newest(frames, Settles);
    s.dead <==> if settling == [] then s0.dead else settling[0].SaveTailStopped?
  }

  lemma {:induction false} FoldBuffers(s0: State, frames: seq<Frame>, bufferSize: nat)
    requires |s0.data.events| <= bufferSize
    ensures Buffers(s0, frames, bufferSize, Fold(s0, frames, bufferSize))
  {
    hide Reduce, Push;
    if frames != [] {
      var earlier, last := frames[..|frames| - 1], frames[|frames| - 1];
      var s := Fold(s0, earlier, bufferSize);
      FoldBuffers(s0, earlier, bufferSize);
      ReduceBuffers(s, last, bufferSize);
      if Buffered(last) {
        PushCaps(Newest(earlier, Buffered) + s0.data.events, last, bufferSize);
        assert [last] + (Newest(earlier, Buffered) + s0.data.events) == Newest(frames, Buffered) + s0.data.events;
      }
    }
  }

  lemma ReduceBuffers(s: State, frame: Frame, bufferSize: nat)
    ensures var s' := Reduce(s, frame, bufferSize);
      && s'.data.events == (if Buffered(frame) then Push(s.data.events, frame, bufferSize) else s.data.events)
      && s'.data.narrativeSeq == s.data.narrativeSeq + (if IsNarrative(frame) then 1 else 0)
      && s'.data.cacheStateSeq == s.data.cacheStateSeq + (if IsCacheState(frame) then 1 else 0)
      && SeqNo(s'.data.autoResumed) == SeqNo(s.data.autoResumed) + (if IsResume(frame) then 1 else 0)
  {
    hide Push;
  }

  lemma PushCaps(all: seq<Frame>, frame: Frame, bufferSize: nat)
    ensures Push(Cap(all, bufferSize), frame, bufferSize) == Cap([frame] + all, bufferSize)
  {
  }

  lemma {:induction false} FoldLatestTick(s0: State, frames: seq<Frame>, bufferSize: nat)
    ensures LatestTick(s0, frames, Fold(s0, frames, bufferSize))
  {
    hide Push;
    if frames != [] {
      FoldLatestTick(s0, frames[..|frames| - 1], bufferSize);
    }
  }

  lemma {:induction false} FoldLatestAlarm(s0: State, frames: seq<Frame>, bufferSize: nat)
    ensures LatestAlarm(s0, frames, Fold(s0, frames, bufferSize))
  {
    hide Push;
    if frames != [] {
      FoldLatestAlarm(s0, frames[..|frames| - 1], bufferSize);
    }
  }

  lemma {:induction false} FoldLatestResume(s0: State, frames: seq<Frame>, bufferSize: nat)
    ensures LatestResume(s0, frames, Fold(s0, frames, bufferSize))
  {
    hide Push;
    if frames != [] {
      FoldLatestResume(s0, frames[..|frames| - 1], bufferSize);
    }
  }

  lemma {:induction false} FoldConnected(s0: State, frames: seq<Frame>, bufferSize: nat)
    ensures Connected(s0, frames, Fold(s0, frames, bufferSize))
  {
    hide Reduce;
    if frames != [] {
      var earlier, last := frames[..|frames| - 1], frames[|frames| - 1];
      FoldConnected(s0, earlier, bufferSize);
      FoldSettled(s0, earlier, bufferSize);
      StopsSettle(earlier);
      ReduceFlags(Fold(s0, earlier, bufferSize), last, bufferSize);
    }
  }

  lemma ReduceFlags(s: State, frame: Frame, bufferSize: nat)
    ensures var s' := Reduce(s, frame, bufferSize);
      && (s'.connected <==> !frame.SaveTailStopped? && (s.connected || (s.dead && TailAlive(frame))))
      && (s'.dead <==> frame.SaveTailStopped? || (s.dead && !TailAlive(frame)))
  {
    hide Push;
  }

  lemma {:induction false} StopsSettle(frames: seq<Frame>)
    ensures Newest(frames, Settles) == [] ==> Newest(frames, IsStop) == []
    ensures Newest(frames, Settles) != [] && Newest(frames, Settles)[0].SaveTailStopped? ==> Newest(frames, IsStop) != []
  {
    if frames != [] {
      StopsSettle(frames[..|frames| - 1]);
    }
  }

  lemma {:induction false} FoldSettled(s0: State, frames: seq<Frame>, bufferSize: nat)
    ensures Settled(s0, frames, Fold(s0, frames, bufferSize))
  {
    hide Reduce;
    if frames != [] {
      FoldSettled(s0, frames[..|frames| - 1], bufferSize);
      ReduceFlags(Fold(s0, frames[..|frames| - 1], bufferSize), frames[|frames| - 1], bufferSize);
    }
  }

  // The red badge, read off the frames alone: the tail has not stopped since it
  // last spoke, no recovery is open, and the newest foreign drop carries a time
  // strictly later than the newest completed tick, or the tick carries none.
  lemma WrongGameBadge(frames: seq<Frame>, bufferSize: nat)
    ensures
      var drops, pairs := Newest(frames, IsForeign), Newest(frames, IsPair);
      var phases, settling := Newest(frames, IsPhase), Newest(frames, Settles);
      var foreignAt := if drops == [] then None else drops[0].drop.observedAt;
      var tickAt := if pairs == [] then None else pairs[0].pair.completedAt;
      TailStatus(Fold(EMPTY_STATE, frames, bufferSize)) == WrongGame <==>
        && !(settling != [] && settling[0].SaveTailStopped?)
        && !(phases != [] && phases[0].Recovering?)
        && foreignAt.Some? && (tickAt.Some? ==> foreignAt.value > tickAt.value)
  {
    FoldLatestTick(EMPTY_STATE, frames, bufferSize);
    FoldLatestAlarm(EMPTY_STATE, frames, bufferSize);
    FoldSettled(EMPTY_STATE, frames, bufferSize);
  }

  // Every badge, read off the frames alone, for a channel whose EventSource has opened or
  // has not.
  lemma EveryBadge(connected: bool, frames: seq<Frame>, bufferSize: nat)
    ensures
      var drops, pairs, stops := Newest(frames, IsForeign), Newest(frames, IsPair), Newest(frames, IsStop);
      var phases, settling := Newest(frames, IsPhase), Newest(frames, Settles);
      var badge := TailStatus(Fold(EMPTY_STATE.(connected := connected), frames, bufferSize));
      var stopped := settling != [] && settling[0].SaveTailStopped?;
      var catchingUp := phases != [] && phases[0].Recovering?;
      var wrongGame := drops != [] && drops[0].drop.observedAt.Some?
        && (pairs == [] || pairs[0].pair.completedAt.None?
            || drops[0].drop.observedAt.value > pairs[0].pair.completedAt.value);
      && (badge == Unavailable <==> stopped)
      && (badge == CatchingUp <==> !stopped && catchingUp)
      && (badge == WrongGame <==> !stopped && !catchingUp && wrongGame)
      && (badge == Live <==> !stopped && !catchingUp && !wrongGame && pairs != [])
      && (badge == Watching <==>
            !stopped && !catchingUp && !wrongGame && pairs == [] && (connected || (settling != [] && stops != [])))
  {
    var s0 := EMPTY_STATE.(connected := connected);
    FoldLatestTick(s0, frames, bufferSize);
    FoldLatestAlarm(s0, frames, bufferSize);
    FoldSettled(s0, frames, bufferSize);
    FoldConnected(s0, frames, bufferSize);
    StopsSettle(frames);
  }

  predicate IsEvent(frame: Frame) { frame.EventIngested? }

  // As documented: of the kinds this backend publishes only event_ingested is buffered,
  // the newest bufferSize of them, newest first.
  lemma OnlyEventsBuffered(frames: seq<Frame>, bufferSize: nat)
    requires forall i | 0 <= i < |frames| :: !frames[i].Unmodelled?
    ensures Fold(EMPTY_STATE, frames, bufferSize).data.events == Cap(Newest(frames, IsEvent), bufferSize)
  {
    FoldBuffers(EMPTY_STATE, frames, bufferSize);
    BufferedAreEvents(frames);
    assert Newest(frames, Buffered) + [] == Newest(frames, Buffered);
  }

  lemma {:induction false} BufferedAreEvents(frames: seq<Frame>)
    requires forall i | 0 <= i < |frames| :: !frames[i].Unmodelled?
    ensures Newest(frames, Buffered) == Newest(frames, IsEvent)
  {
    if frames != [] {
      BufferedAreEvents(frames[..|frames| - 1]);
      assert Buffered(frames[|frames| - 1]) == IsEvent(frames[|frames| - 1]);
    }
  }
}
