/** Newest wins: a REST resync racing the live stream.

    The ingest hook asks the backend for the cache state on every open. The answer
    may come back at any later time, in any order with other answers, frames,
    deaths, releases and reopenings. */
module ResyncRace {
  import opened Options
  import opened ChannelSpec
  import opened ChannelRuns
  import opened ChannelHistory
  import opened IngestStream

  type IngestWorld = World<IngestData, nat>
  type IngestEvent = Event<IngestData, Frame, nat>

  // The store's world and, for each open, the seq its resync read before asking.
  datatype Client = Client(w: IngestWorld, asked: seq<nat>)

  datatype ClientEvent =
    | Transport(e: IngestEvent)
    | Opens(source: nat)
    | Answer(ticket: nat, snapshot: Option<Snapshot>)   // None: the request failed

  // Steps that do not involve the hook: an open and its `apply` are steps of the client
  // below, and state is never injected from outside.
  predicate Plain(e: IngestEvent) {
    !e.Opened? && !e.Apply? && !e.Update?
  }

  function SeqOf(w: IngestWorld, id: nat): nat
    requires id < |w.chans|
  {
    w.chans[id].state.data.cacheStateSeq
  }

  function CacheOf(w: IngestWorld, id: nat): Option<CacheState>
    requires id < |w.chans|
  {
    w.chans[id].state.data.cacheState
  }

  ghost predicate ClientInv(c: Client, has: bool) {
    Inv(c.w, has) && |c.asked| == |c.w.tickets|
  }

  // The hook's onOpen: read the seq through `apply`, then ask.
  ghost function StepOpens(c: Client, source: nat): Client
    requires WellFormed(c.w)
  {
    if source !in c.w.open then c
    else
      var id := c.w.open[source].chan;
      var w1 := StepOpened(c.w, source);
      var w2 := StepApply(w1, |c.w.tickets|, s => s);
      Client(w2, c.asked + [if ChannelSpec.Live(w1, c.w.open[source]) then SeqOf(w1, id) else 0])
  }

  ghost function StepAnswer(c: Client, ticket: nat, snapshot: Option<Snapshot>): Client
    requires WellFormed(c.w)
  {
    if snapshot.None? || ticket >= |c.asked| then c
    else
      var seqAtRequest := c.asked[ticket];
      c.(w := StepApply(c.w, ticket, s => Resync(s, seqAtRequest, snapshot.value)))
  }

  ghost function ClientStep(has: bool, c: Client, e: ClientEvent): (c': Client)
    requires ClientInv(c, has)
  {
    match e
    case Transport(t) => if Plain(t) then c.(w := Step(IngestConfig(has), c.w, t)) else c
    case Opens(source) => StepOpens(c, source)
    case Answer(ticket, snapshot) => StepAnswer(c, ticket, snapshot)
  }

  lemma PlainKeepsTickets(has: bool, w: IngestWorld, e: IngestEvent)
    requires WellFormed(w) && Plain(e)
    ensures Step(IngestConfig(has), w, e).tickets == w.tickets
  {
    hide StepOpened, StepApply, StepUpdate, StepSubscribe, StepUnsubscribe, StepErrored, StepMessage, StepFire;
    match e
    case Subscribe(key, notifier, context) => SubscribeTickets(has, w, key, notifier, context);
    case Unsubscribe(sub) => UnsubscribeTickets(w, sub);
    case Errored(source) => ErroredTickets(has, w, source);
    case Message(source, frame) => MessageTickets(has, w, source, frame);
    case Fire(timer) => FireTickets(has, w, timer);
    case _ =>
  }

  lemma SubscribeTickets(has: bool, w: IngestWorld, key: string, notifier: nat, context: Option<nat>)
    requires WellFormed(w)
    ensures StepSubscribe(IngestConfig(has), w, key, notifier, context).tickets == w.tickets
  {
  }

  lemma UnsubscribeTickets(w: IngestWorld, sub: nat)
    requires WellFormed(w)
    ensures StepUnsubscribe(w, sub).tickets == w.tickets
  {
  }

  lemma ErroredTickets(has: bool, w: IngestWorld, source: nat)
    requires WellFormed(w)
    ensures StepErrored(IngestConfig(has), w, source).tickets == w.tickets
  {
  }

  lemma MessageTickets(has: bool, w: IngestWorld, source: nat, frame: Option<Frame>)
    requires WellFormed(w)
    ensures StepMessage(IngestConfig(has), w, source, frame).tickets == w.tickets
  {
  }

  lemma FireTickets(has: bool, w: IngestWorld, timer: nat)
    requires WellFormed(w)
    ensures StepFire(IngestConfig(has), w, timer).tickets == w.tickets
  {
  }

  lemma OpensKeepsInv(has: bool, c: Client, source: nat)
    requires ClientInv(c, has)
    ensures ClientInv(StepOpens(c, source), has)
  {
    if source in c.w.open {
      OpenedKeepsInv(c.w, source, has);
      ApplyKeepsInv(StepOpened(c.w, source), |c.w.tickets|, s => s, has);
    }
  }

  lemma AnswerKeepsInv(has: bool, c: Client, ticket: nat, snapshot: Option<Snapshot>)
    requires ClientInv(c, has)
    ensures ClientInv(StepAnswer(c, ticket, snapshot), has)
  {
    if snapshot.Some? && ticket < |c.asked| {
      var seqAtRequest := c.asked[ticket];
      ApplyKeepsInv(c.w, ticket, s => Resync(s, seqAtRequest, snapshot.value), has);
    }
  }

  lemma ClientStepKeepsInv(has: bool, c: Client, e: ClientEvent)
    requires ClientInv(c, has)
    ensures ClientInv(ClientStep(has, c, e), has)
  {
    hide Step, StepOpens, StepAnswer, Inv;
    match e
    case Transport(t) =>
      if Plain(t) {
        StepKeepsInv(IngestConfig(has), c.w, t);
        InRange(c.w, has);
        PlainKeepsTickets(has, c.w, t);
      }
    case Opens(source) => OpensKeepsInv(has, c, source);
    case Answer(ticket, snapshot) => AnswerKeepsInv(has, c, ticket, snapshot);
  }

  ghost function ClientRun(has: bool, events: seq<ClientEvent>): (c: Client)
    ensures ClientInv(c, has)
  {
    if events == [] then Client(Init(), [])
    else
      var c := ClientRun(has, events[..|events| - 1]);
      ClientStepKeepsInv(has, c, events[|events| - 1]);
      ClientStep(has, c, events[|events| - 1])
  }

  // ---- Frames delivered, and the seq that counts them ----

  ghost function Delivered(w: IngestWorld, e: ClientEvent, id: nat): Option<CacheState> {
    match e
    case Transport(Message(source, Some(CacheStateFrame(cache)))) =>
      if source in w.open && w.open[source].chan == id then Some(cache) else None
    case _ => None
  }

  // The cache_state frames a channel has received, oldest first.
  ghost function Frames(has: bool, events: seq<ClientEvent>, id: nat): seq<CacheState> {
    if events == [] then []
    else
      var earlier := events[..|events| - 1];
      var d := Delivered(ClientRun(has, earlier).w, events[|events| - 1], id);
      Frames(has, earlier, id) + if d.Some? then [d.value] else []
  }

  // What one step may do to the cache state a channel shows: a frame replaces it and
  // moves the seq; anything but an answer otherwise leaves it or clears it.
  ghost predicate Effect(w: IngestWorld, w': IngestWorld, d: Option<CacheState>, id: nat)
    requires id < |w.chans|
  {
    && id < |w'.chans|
    && SeqOf(w', id) == SeqOf(w, id) + (if d.Some? then 1 else 0)
    && if d.Some? then CacheOf(w', id) == d else CacheOf(w', id) == CacheOf(w, id) || CacheOf(w', id) == None
  }

  lemma MessageEffect(has: bool, w: IngestWorld, source: nat, frame: Option<Frame>, id: nat)
    requires WellFormed(w) && id < |w.chans|
    ensures Effect(w, StepMessage(IngestConfig(has), w, source, frame), Delivered(w, Transport(Message(source, frame)), id), id)
  {
    hide Push;
  }

  lemma ErrorEffect(has: bool, w: IngestWorld, source: nat, id: nat)
    requires WellFormed(w) && id < |w.chans|
    ensures Effect(w, StepErrored(IngestConfig(has), w, source), None, id)
  {
    hide Die;
    if Counted(w, source) {
      var h := w.open[source];
      var ch := w.chans[h.chan].(errors := w.chans[h.chan].errors + 1);
      DieClears(has, SetChan(w, h.chan, ch), source, h, id);
    }
  }

  lemma PlainEffect(has: bool, w: IngestWorld, e: IngestEvent, id: nat)
    requires WellFormed(w) && Plain(e) && id < |w.chans|
    ensures Effect(w, Step(IngestConfig(has), w, e), Delivered(w, Transport(e), id), id)
  {
    hide StepSubscribe, StepUnsubscribe, StepOpened, StepErrored, StepMessage, StepFire, StepApply, StepUpdate;
    match e
    case Subscribe(_, _, _) => CallKeepsState(IngestConfig(has), w, e, id);
    case Unsubscribe(_) => CallKeepsState(IngestConfig(has), w, e, id);
    case Fire(timer) => FireKeepsState(IngestConfig(has), w, timer, id);
    case Errored(source) => ErrorEffect(has, w, source, id);
    case Message(source, frame) => MessageEffect(has, w, source, frame, id);
    case _ =>
  }

  lemma OpensEffect(c: Client, source: nat, id: nat)
    requires WellFormed(c.w) && id < |c.w.chans|
    ensures Effect(c.w, StepOpens(c, source).w, None, id)
    ensures CacheOf(StepOpens(c, source).w, id) == CacheOf(c.w, id)
  {
  }

  lemma AnswerKeepsSeq(c: Client, ticket: nat, snapshot: Option<Snapshot>, id: nat)
    requires WellFormed(c.w) && id < |c.w.chans|
    ensures |StepAnswer(c, ticket, snapshot).w.chans| == |c.w.chans|
    ensures SeqOf(StepAnswer(c, ticket, snapshot).w, id) == SeqOf(c.w, id)
  {
  }

  lemma NewChannelIsEmpty(has: bool, w: IngestWorld, e: IngestEvent, id: nat)
    requires WellFormed(w) && Plain(e) && |w.chans| <= id < |Step(IngestConfig(has), w, e).chans|
    ensures SeqOf(Step(IngestConfig(has), w, e), id) == 0 && CacheOf(Step(IngestConfig(has), w, e), id) == None
  {
    hide StepSubscribe, StepUnsubscribe, StepOpened, StepErrored, StepMessage, StepFire, StepApply, StepUpdate;
    if e.Subscribe? {
      MadeFresh(IngestConfig(has), w, e.key, e.notifier, e.context, id);
    } else {
      OnlySubscribeMakes(IngestConfig(has), w, e);
    }
  }

  lemma ClientSeq(has: bool, c: Client, e: ClientEvent, id: nat)
    requires ClientInv(c, has) && id < |c.w.chans|
    ensures id < |ClientStep(has, c, e).w.chans|
    ensures SeqOf(ClientStep(has, c, e).w, id) == SeqOf(c.w, id) + if Delivered(c.w, e, id).Some? then 1 else 0
  {
    hide Step, StepOpens, StepAnswer, Inv;
    InRange(c.w, has);
    match e
    case Transport(t) =>
      if Plain(t) {
        PlainEffect(has, c.w, t, id);
      }
    case Opens(source) => OpensEffect(c, source, id);
    case Answer(ticket, snapshot) => AnswerKeepsSeq(c, ticket, snapshot, id);
  }

  lemma ClientMakes(has: bool, c: Client, e: ClientEvent, id: nat)
    requires ClientInv(c, has) && |c.w.chans| <= id < |ClientStep(has, c, e).w.chans|
    ensures SeqOf(ClientStep(has, c, e).w, id) == 0 && CacheOf(ClientStep(has, c, e).w, id) == None
  {
    hide Step, StepOpened, StepApply, Inv;
    InRange(c.w, has);
    match e
    case Transport(t) =>
      if Plain(t) {
        NewChannelIsEmpty(has, c.w, t, id);
      }
    case Opens(source) => OpensMakesNothing(c, source);
    case Answer(ticket, snapshot) => AnswerMakesNothing(c, ticket, snapshot);
  }

  lemma OpensMakesNothing(c: Client, source: nat)
    requires WellFormed(c.w)
    ensures |StepOpens(c, source).w.chans| == |c.w.chans|
  {
  }

  lemma AnswerMakesNothing(c: Client, ticket: nat, snapshot: Option<Snapshot>)
    requires WellFormed(c.w)
    ensures |StepAnswer(c, ticket, snapshot).w.chans| == |c.w.chans|
  {
  }

  // In every run a channel's seq is the number of cache_state frames it has received.
  lemma {:induction false} SeqCountsFrames(has: bool, events: seq<ClientEvent>, id: nat)
    ensures id < |ClientRun(has, events).w.chans| ==> SeqOf(ClientRun(has, events).w, id) == |Frames(has, events, id)|
    ensures id >= |ClientRun(has, events).w.chans| ==> Frames(has, events, id) == []
  {
    hide ClientStep, ClientInv;
    if events != [] {
      var earlier, e := events[..|events| - 1], events[|events| - 1];
      var c := ClientRun(has, earlier);
      SeqCountsFrames(has, earlier, id);
      if id < |c.w.chans| {
        ClientSeq(has, c, e, id);
      } else {
        NoneDeliveredYet(has, c, e, id);
        if id < |ClientRun(has, events).w.chans| {
          ClientMakes(has, c, e, id);
        }
      }
    }
  }

  lemma NoneDeliveredYet(has: bool, c: Client, e: ClientEvent, id: nat)
    requires ClientInv(c, has) && id >= |c.w.chans|
    ensures Delivered(c.w, e, id) == None
  {
    InRange(c.w, has);
  }

  // ---- Tickets are issued once and never change ----

  ghost predicate Extends(c: Client, c': Client) {
    && |c.asked| == |c.w.tickets| <= |c'.asked| == |c'.w.tickets|
    && (forall t | 0 <= t < |c.asked| :: c'.asked[t] == c.asked[t] && c'.w.tickets[t] == c.w.tickets[t])
  }

  lemma StepExtends(has: bool, c: Client, e: ClientEvent)
    requires ClientInv(c, has)
    ensures Extends(c, ClientStep(has, c, e))
  {
    hide Step, Inv;
    InRange(c.w, has);
    if e.Transport? && Plain(e.e) {
      PlainKeepsTickets(has, c.w, e.e);
    }
  }

  lemma {:induction false} RunExtends(has: bool, before: seq<ClientEvent>, after: seq<ClientEvent>)
    ensures Extends(ClientRun(has, before), ClientRun(has, before + after))
    ensures forall id: nat :: |Frames(has, before, id)| <= |Frames(has, before + after, id)|
  {
    hide ClientStep, Inv;
    var all := before + after;
    if after == [] {
      assert all == before;
    } else {
      assert all[..|all| - 1] == before + after[..|after| - 1];
      RunExtends(has, before, after[..|after| - 1]);
      StepExtends(has, ClientRun(has, all[..|all| - 1]), all[|all| - 1]);
    }
  }

  // ---- Newest wins ----

  ghost predicate Shows(w: IngestWorld, w': IngestWorld, id: nat, snapshot: Snapshot)
    requires id < |w.chans|
  {
    var drops := if CacheOf(w, id).Some? then CacheOf(w, id).value.gcDropsLifetime else 0;
    var state := w.chans[id].state;
    w'.chans == w.chans[id := w.chans[id].(state := state.(data := state.data.(
      cacheState := Some(CacheState(snapshot.pending, snapshot.bytes, drops)))))]
  }

  lemma AnswerIsSeqGuarded(c: Client, ticket: nat, snapshot: Snapshot)
    requires WellFormed(c.w) && |c.asked| == |c.w.tickets| && ticket < |c.asked|
    ensures
      var h := c.w.tickets[ticket];
      var w' := StepAnswer(c, ticket, Some(snapshot)).w;
      if h.key in c.w.channels && c.w.channels[h.key] == h.chan && SeqOf(c.w, h.chan) == c.asked[ticket]
      then Shows(c.w, w', h.chan, snapshot)
      else w'.chans == c.w.chans
  {
  }

  lemma OpenIssuesTicket(has: bool, c: Client, source: nat)
    requires ClientInv(c, has) && source in c.w.open
    ensures
      var c' := StepOpens(c, source);
      var h := c.w.open[source];
      && c'.w.tickets == c.w.tickets + [h] && c'.asked == c.asked + [SeqOf(c.w, h.chan)]
      && c.w.chans[h.chan].key == h.key
  {
    InRange(c.w, has);
    assert SourceOk(c.w, source);
    OpensEffect(c, source, c.w.open[source].chan);
  }

  // Take any run in which an EventSource opens, then anything happens, then the
  // answer to that open's resync arrives. It is shown exactly when its channel is
  // still the one under its key and has received no cache_state frame since the
  // request went out; otherwise no channel changes at all.
  lemma NewestWins(has: bool, before: seq<ClientEvent>, source: nat, after: seq<ClientEvent>, snapshot: Snapshot)
    requires source in ClientRun(has, before).w.open
    ensures
      var ticket, id := |ClientRun(has, before).asked|, ClientRun(has, before).w.open[source].chan;
      var run := before + [Opens(source)] + after;
      var c := ClientRun(has, run);
      var w' := StepAnswer(c, ticket, Some(snapshot)).w;
      && ticket < |c.asked| && id < |c.w.chans|
      && if Mapped(c.w, id) && |Frames(has, run, id)| == |Frames(has, before, id)|
         then Shows(c.w, w', id, snapshot)
         else w'.chans == c.w.chans
  {
    hide ClientStep, StepOpens, StepAnswer, Inv, Shows;
    var ticket := |ClientRun(has, before).asked|;
    var run := before + [Opens(source)] + after;
    InRange(ClientRun(has, before).w, has);
    TicketFacts(has, before, source, after);
    InRange(ClientRun(has, run).w, has);
    TicketKeysMatch(ClientRun(has, run).w, ticket, has);
    AnswerIsSeqGuarded(ClientRun(has, run), ticket, snapshot);
  }

  // What an open's ticket still says however much later.
  lemma TicketFacts(has: bool, before: seq<ClientEvent>, source: nat, after: seq<ClientEvent>)
    requires source in ClientRun(has, before).w.open
    ensures
      var ticket, id := |ClientRun(has, before).asked|, ClientRun(has, before).w.open[source].chan;
      var run := before + [Opens(source)] + after;
      var c := ClientRun(has, run);
      && ticket < |c.asked| == |c.w.tickets| && id < |c.w.chans|
      && c.w.tickets[ticket].chan == id && c.asked[ticket] == |Frames(has, before, id)|
      && SeqOf(c.w, id) == |Frames(has, run, id)|
  {
    hide ClientRun, ClientStep, StepOpens, Inv, Frames;
    var c0 := ClientRun(has, before);
    var ticket, id := |c0.asked|, c0.w.open[source].chan;
    var asking := before + [Opens(source)];
    var run := asking + after;
    InRange(c0.w, has);
    OpenedRun(has, before, source);
    RunExtends(has, asking, after);
    SeqCountsFrames(has, before, id);
    SeqCountsFrames(has, run, id);
    TicketKeysMatch(ClientRun(has, run).w, ticket, has);
  }

  lemma TicketKeysMatch(w: IngestWorld, ticket: nat, has: bool)
    requires Inv(w, has) && ticket < |w.tickets|
    ensures w.tickets[ticket].chan < |w.chans| && w.chans[w.tickets[ticket].chan].key == w.tickets[ticket].key
  {
  }

  lemma OpenedRun(has: bool, before: seq<ClientEvent>, source: nat)
    requires source in ClientRun(has, before).w.open
    ensures
      var c := ClientRun(has, before);
      var c' := ClientRun(has, before + [Opens(source)]);
      var h := c.w.open[source];
      && h.chan < |c.w.chans|
      && c'.w.tickets == c.w.tickets + [h] && c'.asked == c.asked + [SeqOf(c.w, h.chan)]
    ensures forall id: nat :: Frames(has, before + [Opens(source)], id) == Frames(has, before, id)
  {
    hide StepOpens, Inv;
    assert (before + [Opens(source)])[..|before|] == before;
    InRange(ClientRun(has, before).w, has);
    OpenIssuesTicket(has, ClientRun(has, before), source);
  }

  // ---- What a channel shows is never older than its newest frame ----

  // The value came from an answer whose request went out after the newest frame.
  ghost predicate Answered(c: Client, events: seq<ClientEvent>, id: nat, frames: nat, cache: CacheState) {
    exists t: nat, snapshot: Snapshot ::
      && Answer(t, Some(snapshot)) in events
      && t < |c.asked| && t < |c.w.tickets| && c.w.tickets[t].chan == id && c.asked[t] == frames
      && cache.pending == snapshot.pending && cache.bytes == snapshot.bytes
  }

  ghost predicate Current(c: Client, events: seq<ClientEvent>, id: nat, frames: seq<CacheState>)
    requires id < |c.w.chans|
  {
    var shown := CacheOf(c.w, id);
    || shown.None?
    || (frames != [] && shown.value == frames[|frames| - 1])
    || Answered(c, events, id, |frames|, shown.value)
  }

  lemma StaysCurrent(c: Client, c': Client, earlier: seq<ClientEvent>, e: ClientEvent, id: nat, frames: seq<CacheState>)
    requires id < |c.w.chans| && id < |c'.w.chans| && Extends(c, c')
    requires Current(c, earlier, id, frames)
    requires CacheOf(c'.w, id) == CacheOf(c.w, id) || CacheOf(c'.w, id) == None
    ensures Current(c', earlier + [e], id, frames)
  {
    if CacheOf(c'.w, id).Some? && Answered(c, earlier, id, |frames|, CacheOf(c.w, id).value) {
      var cache := CacheOf(c.w, id).value;
      var t: nat, snapshot: Snapshot :|
        && Answer(t, Some(snapshot)) in earlier
        && t < |c.asked| && t < |c.w.tickets| && c.w.tickets[t].chan == id && c.asked[t] == |frames|
        && cache.pending == snapshot.pending && cache.bytes == snapshot.bytes;
      assert Answer(t, Some(snapshot)) in earlier + [e];
    }
  }

  lemma AnswerIsCurrent(has: bool, c: Client, earlier: seq<ClientEvent>, ticket: nat, snapshot: Snapshot, id: nat, frames: seq<CacheState>)
    requires ClientInv(c, has) && id < |c.w.chans|
    requires ticket < |c.asked| && SeqOf(c.w, id) == |frames|
    requires Current(c, earlier, id, frames)
    ensures
      var c' := StepAnswer(c, ticket, Some(snapshot));
      id < |c'.w.chans| && Current(c', earlier + [Answer(ticket, Some(snapshot))], id, frames)
  {
    hide StepAnswer, Inv, Current;
    InRange(c.w, has);
    var c' := StepAnswer(c, ticket, Some(snapshot));
    var e := Answer(ticket, Some(snapshot));
    AnswerIsSeqGuarded(c, ticket, snapshot);
    AnswerMakesNothing(c, ticket, Some(snapshot));
    AnswerKeepsTickets(c, ticket, snapshot);
    if CacheOf(c'.w, id) == CacheOf(c.w, id) {
      StaysCurrent(c, c', earlier, e, id, frames);
    } else {
      assert e in earlier + [e];
      FreshAnswer(c', earlier + [e], ticket, snapshot, id, frames);
    }
  }

  lemma AnswerKeepsTickets(c: Client, ticket: nat, snapshot: Snapshot)
    requires WellFormed(c.w)
    ensures StepAnswer(c, ticket, Some(snapshot)).asked == c.asked
    ensures StepAnswer(c, ticket, Some(snapshot)).w.tickets == c.w.tickets
  {
  }

  lemma FreshAnswer(c: Client, events: seq<ClientEvent>, ticket: nat, snapshot: Snapshot, id: nat, frames: seq<CacheState>)
    requires id < |c.w.chans| && Answer(ticket, Some(snapshot)) in events
    requires ticket < |c.asked| && ticket < |c.w.tickets|
    requires c.w.tickets[ticket].chan == id && c.asked[ticket] == |frames|
    requires CacheOf(c.w, id).Some?
    requires CacheOf(c.w, id).value.pending == snapshot.pending && CacheOf(c.w, id).value.bytes == snapshot.bytes
    ensures Current(c, events, id, frames)
  {
  }

  lemma TransportIsCurrent(has: bool, c: Client, earlier: seq<ClientEvent>, e: IngestEvent, id: nat, frames: seq<CacheState>)
    requires ClientInv(c, has) && Plain(e) && id < |c.w.chans|
    requires Current(c, earlier, id, frames)
    ensures
      var c' := c.(w := Step(IngestConfig(has), c.w, e));
      var d := Delivered(c.w, Transport(e), id);
      id < |c'.w.chans| && Current(c', earlier + [Transport(e)], id, frames + if d.Some? then [d.value] else [])
  {
    hide Step, Inv;
    InRange(c.w, has);
    var c' := c.(w := Step(IngestConfig(has), c.w, e));
    PlainEffect(has, c.w, e, id);
    PlainKeepsTickets(has, c.w, e);
    if Delivered(c.w, Transport(e), id).None? {
      StaysCurrent(c, c', earlier, Transport(e), id, frames);
      assert frames + [] == frames;
    }
  }

  // In every run, what a channel shows is nothing, its newest frame, or an answer to
  // a request made after that frame. A value read before the newest frame is never
  // shown.
  lemma {:induction false} ShownIsCurrent(has: bool, events: seq<ClientEvent>, id: nat)
    requires id < |ClientRun(has, events).w.chans|
    ensures Current(ClientRun(has, events), events, id, Frames(has, events, id))
  {
    hide Step, StepOpens, StepAnswer, Inv, Current;
    var earlier, e := events[..|events| - 1], events[|events| - 1];
    assert events == earlier + [e];
    var c := ClientRun(has, earlier);
    var frames := Frames(has, earlier, id);
    InRange(c.w, has);
    SeqCountsFrames(has, earlier, id);
    assert frames + [] == frames;
    if id >= |c.w.chans| {
      ClientMakes(has, c, e, id);
      ShowsNothing(ClientRun(has, events), events, id, Frames(has, events, id));
    } else {
      ShownIsCurrent(has, earlier, id);
      StepExtends(has, c, e);
      match e
      case Transport(t) =>
        if Plain(t) {
          TransportIsCurrent(has, c, earlier, t, id, frames);
        } else {
          StaysCurrent(c, c, earlier, e, id, frames);
          assert Delivered(c.w, e, id).None?;
        }
      case Opens(source) =>
        OpensEffect(c, source, id);
        StaysCurrent(c, StepOpens(c, source), earlier, e, id, frames);
      case Answer(ticket, snapshot) =>
        if snapshot.Some? && ticket < |c.asked| {
          AnswerIsCurrent(has, c, earlier, ticket, snapshot.value, id, frames);
        } else {
          IgnoredAnswer(c, ticket, snapshot);
          StaysCurrent(c, c, earlier, e, id, frames);
        }
    }
  }

  lemma IgnoredAnswer(c: Client, ticket: nat, snapshot: Option<Snapshot>)
    requires WellFormed(c.w) && (snapshot.None? || ticket >= |c.asked|)
    ensures StepAnswer(c, ticket, snapshot) == c
  {
  }

  lemma ShowsNothing(c: Client, events: seq<ClientEvent>, id: nat, frames: seq<CacheState>)
    requires id < |c.w.chans| && CacheOf(c.w, id) == None
    ensures Current(c, events, id, frames)
  {
  }

  // ---- When a channel shows a count at all ----

  // The answer is shown: its channel is still the one under its key, with no frame since.
  ghost predicate Landed(c: Client, e: ClientEvent, id: nat) {
    && e.Answer? && e.snapshot.Some? && e.ticket < |c.asked| && e.ticket < |c.w.tickets|
    && c.w.tickets[e.ticket].chan == id && Mapped(c.w, id) && SeqOf(c.w, id) == c.asked[e.ticket]
  }

  ghost predicate Brings(c: Client, e: ClientEvent, id: nat) {
    Delivered(c.w, e, id).Some? || Landed(c, e, id)
  }

  // The third error: onDead clears the count.
  ghost predicate Kills(c: Client, e: ClientEvent, id: nat)
    requires WellFormed(c.w)
  {
    match e
    case Transport(Errored(source)) =>
      && Counted(c.w, source) && c.w.open[source].chan == id && id < |c.w.chans|
      && c.w.chans[id].errors + 1 >= MAX_CONSECUTIVE_ERRORS
    case _ => false
  }

  ghost predicate Counting(has: bool, events: seq<ClientEvent>, id: nat) {
    if events == [] then false
    else
      var earlier, e := events[..|events| - 1], events[|events| - 1];
      var c := ClientRun(has, earlier);
      Brings(c, e, id) || (!Kills(c, e, id) && Counting(has, earlier, id))
  }

  lemma MessageCount(has: bool, w: IngestWorld, source: nat, frame: Option<Frame>, id: nat)
    requires WellFormed(w) && id < |w.chans|
    ensures var d := Delivered(w, Transport(Message(source, frame)), id);
      && id < |StepMessage(IngestConfig(has), w, source, frame).chans|
      && CacheOf(StepMessage(IngestConfig(has), w, source, frame), id) == if d.Some? then d else CacheOf(w, id)
  {
    hide Push;
  }

  lemma ErrorCount(has: bool, c: Client, source: nat, id: nat)
    requires WellFormed(c.w) && id < |c.w.chans|
    ensures var w' := StepErrored(IngestConfig(has), c.w, source);
      && id < |w'.chans|
      && CacheOf(w', id) == if Kills(c, Transport(Errored(source)), id) then None else CacheOf(c.w, id)
  {
    hide Die;
    if Counted(c.w, source) {
      var h := c.w.open[source];
      var ch := c.w.chans[h.chan].(errors := c.w.chans[h.chan].errors + 1);
      DieClears(has, SetChan(c.w, h.chan, ch), source, h, id);
    }
  }

  lemma DieClears(has: bool, w: IngestWorld, source: nat, h: Holder, id: nat)
    requires h.chan < |w.chans| && id < |w.chans|
    ensures var w' := Die(IngestConfig(has), w, source, h);
      && id < |w'.chans| && SeqOf(w', id) == SeqOf(w, id)
      && CacheOf(w', id) == if id == h.chan then None else CacheOf(w, id)
  {
  }

  lemma TransportCount(has: bool, c: Client, t: IngestEvent, id: nat)
    requires WellFormed(c.w) && Plain(t) && id < |c.w.chans|
    ensures var w', e := Step(IngestConfig(has), c.w, t), Transport(t);
      && id < |w'.chans|
      && (CacheOf(w', id).Some? <==> Brings(c, e, id) || (!Kills(c, e, id) && CacheOf(c.w, id).Some?))
  {
    hide StepSubscribe, StepUnsubscribe, StepOpened, StepErrored, StepMessage, StepFire, StepApply, StepUpdate;
    match t
    case Subscribe(_, _, _) => CallKeepsState(IngestConfig(has), c.w, t, id);
    case Unsubscribe(_) => CallKeepsState(IngestConfig(has), c.w, t, id);
    case Fire(timer) => FireKeepsState(IngestConfig(has), c.w, timer, id);
    case Errored(source) => ErrorCount(has, c, source, id);
    case Message(source, frame) => MessageCount(has, c.w, source, frame, id);
    case _ =>
  }

  lemma AnswerCount(has: bool, c: Client, ticket: nat, snapshot: Option<Snapshot>, id: nat)
    requires ClientInv(c, has) && id < |c.w.chans|
    ensures var c' := StepAnswer(c, ticket, snapshot);
      && id < |c'.w.chans|
      && (CacheOf(c'.w, id).Some? <==> Landed(c, Answer(ticket, snapshot), id) || CacheOf(c.w, id).Some?)
  {
    hide StepAnswer, Inv;
    InRange(c.w, has);
    if snapshot.Some? && ticket < |c.asked| {
      TicketKeysMatch(c.w, ticket, has);
      AnswerIsSeqGuarded(c, ticket, snapshot.value);
      AnswerMakesNothing(c, ticket, snapshot);
    } else {
      IgnoredAnswer(c, ticket, snapshot);
    }
  }

  lemma {:induction false} ShowsCounting(has: bool, events: seq<ClientEvent>, id: nat)
    ensures id < |ClientRun(has, events).w.chans| ==>
      (CacheOf(ClientRun(has, events).w, id).Some? <==> Counting(has, events, id))
    ensures id >= |ClientRun(has, events).w.chans| ==> !Counting(has, events, id)
  {
    hide Step, StepOpens, StepAnswer, Inv, Brings, Kills;
    if events != [] {
      var earlier, e := events[..|events| - 1], events[|events| - 1];
      var c := ClientRun(has, earlier);
      ShowsCounting(has, earlier, id);
      InRange(c.w, has);
      if id >= |c.w.chans| {
        NothingBroughtYet(has, c, e, id);
        if id < |ClientRun(has, events).w.chans| {
          ClientMakes(has, c, e, id);
        }
      } else {
        StepCounts(has, c, e, id);
      }
    }
  }

  lemma NothingBroughtYet(has: bool, c: Client, e: ClientEvent, id: nat)
    requires ClientInv(c, has) && id >= |c.w.chans|
    ensures !Brings(c, e, id)
  {
    NoneDeliveredYet(has, c, e, id);
  }

  lemma StepCounts(has: bool, c: Client, e: ClientEvent, id: nat)
    requires ClientInv(c, has) && id < |c.w.chans|
    ensures var w' := ClientStep(has, c, e).w;
      && id < |w'.chans|
      && (CacheOf(w', id).Some? <==> Brings(c, e, id) || (!Kills(c, e, id) && CacheOf(c.w, id).Some?))
  {
    hide Step, StepOpens, StepAnswer, Inv;
    InRange(c.w, has);
    match e
    case Transport(t) =>
      if Plain(t) {
        TransportCount(has, c, t, id);
      }
    case Opens(source) => OpensEffect(c, source, id);
    case Answer(ticket, snapshot) => AnswerCount(has, c, ticket, snapshot, id);
  }

  ghost predicate BroughtAt(has: bool, events: seq<ClientEvent>, id: nat, i: nat)
    requires i < |events|
  {
    Brings(ClientRun(has, events[..i]), events[i], id)
  }

  ghost predicate KilledAt(has: bool, events: seq<ClientEvent>, id: nat, i: nat)
    requires i < |events|
  {
    Kills(ClientRun(has, events[..i]), events[i], id)
  }

  ghost predicate BroughtSince(has: bool, events: seq<ClientEvent>, id: nat, i: nat)
    requires i < |events|
  {
    BroughtAt(has, events, id, i) && forall j | i < j < |events| :: !KilledAt(has, events, id, j)
  }

  lemma {:induction false} CountingIsSince(has: bool, events: seq<ClientEvent>, id: nat)
    ensures Counting(has, events, id) <==> exists i :: 0 <= i < |events| && BroughtSince(has, events, id, i)
  {
    hide Brings, Kills, ClientRun;
    if events != [] {
      var n := |events| - 1;
      var earlier := events[..n];
      CountingIsSince(has, earlier, id);
      forall i | 0 <= i < n
        ensures BroughtSince(has, events, id, i) <==>
          BroughtSince(has, earlier, id, i) && !KilledAt(has, events, id, n)
      {
        SinceSnoc(has, events, id, i);
      }
      assert BroughtSince(has, events, id, n) <==> BroughtAt(has, events, id, n);
    }
  }

  lemma SinceSnoc(has: bool, events: seq<ClientEvent>, id: nat, i: nat)
    requires i < |events| - 1
    ensures BroughtSince(has, events, id, i) <==>
      BroughtSince(has, events[..|events| - 1], id, i) && !KilledAt(has, events, id, |events| - 1)
  {
    hide Brings, Kills, ClientRun;
    var earlier := events[..|events| - 1];
    assert earlier[..i] == events[..i];
    forall j | i < j < |earlier|
      ensures KilledAt(has, events, id, j) == KilledAt(has, earlier, id, j)
    {
      assert earlier[..j] == events[..j];
    }
  }

  // In every run a channel shows a count exactly when a cache_state frame or an answer
  // that landed has come since the errors last killed it.
  lemma ShowsCountIff(has: bool, events: seq<ClientEvent>, id: nat)
    requires id < |ClientRun(has, events).w.chans|
    ensures CacheOf(ClientRun(has, events).w, id).Some? <==>
      exists i :: 0 <= i < |events| && BroughtSince(has, events, id, i)
  {
    hide ClientRun, Counting, BroughtSince;
    ShowsCounting(has, events, id);
    CountingIsSince(has, events, id);
  }

  // ---- What a channel killed by errors shows ----

  lemma ErrorKeepsSource(has: bool, c: Client, source: nat, id: nat)
    requires WellFormed(c.w) && id < |c.w.chans| && !Kills(c, Transport(Errored(source)), id)
    ensures var w' := StepErrored(IngestConfig(has), c.w, source);
      id < |w'.chans| && w'.chans[id].source == c.w.chans[id].source
  {
    hide Die;
    if Counted(c.w, source) && c.w.open[source].chan != id {
      var h := c.w.open[source];
      DieSpares(has, SetChan(c.w, h.chan, c.w.chans[h.chan].(errors := c.w.chans[h.chan].errors + 1)), source, h, id);
    }
  }

  lemma DieSpares(has: bool, w: IngestWorld, source: nat, h: Holder, id: nat)
    requires h.chan < |w.chans| && id < |w.chans| && id != h.chan
    ensures var w' := Die(IngestConfig(has), w, source, h); id < |w'.chans| && w'.chans[id] == w.chans[id]
  {
  }

  lemma SubscribeKeepsSource(w: IngestWorld, key: string, notifier: nat, context: Option<nat>, id: nat)
    requires WellFormed(w) && id < |w.chans|
    ensures var w' := StepSubscribe(IngestConfig(true), w, key, notifier, context);
      id < |w'.chans| && w'.chans[id].source == w.chans[id].source
  {
  }

  lemma UnsubscribeKeepsSource(w: IngestWorld, sub: nat, id: nat)
    requires Inv(w, true) && id < |w.chans| && Mapped(StepUnsubscribe(w, sub), id)
    ensures StepUnsubscribe(w, sub).chans[id].source == w.chans[id].source
  {
    hide Paced, Holding;
    assert sub in w.subs ==> SubOk(w, sub) && ChanWired(w, w.subs[sub].holder.chan, true);
  }

  lemma FireKeepsSource(w: IngestWorld, timer: nat, id: nat)
    requires WellFormed(w) && id < |w.chans| && w.chans[id].source.Some?
    ensures var w' := StepFire(IngestConfig(true), w, timer); id < |w'.chans| && w'.chans[id].source.Some?
  {
  }

  // Only the errors take a mapped channel's source away.
  lemma SourceKept(c: Client, e: ClientEvent, id: nat)
    requires ClientInv(c, true) && id < |c.w.chans| && !Kills(c, e, id)
    requires c.w.chans[id].source.Some? && Mapped(ClientStep(true, c, e).w, id)
    ensures ClientStep(true, c, e).w.chans[id].source.Some?
  {
    hide StepSubscribe, StepUnsubscribe, StepErrored, StepMessage, StepFire, Inv, WellFormed;
    InRange(c.w, true);
    match e
    case Transport(t) =>
      if Plain(t) {
        match t
        case Subscribe(key, notifier, context) => SubscribeKeepsSource(c.w, key, notifier, context, id);
        case Unsubscribe(sub) => UnsubscribeKeepsSource(c.w, sub, id);
        case Errored(source) => ErrorKeepsSource(true, c, source, id);
        case Message(source, frame) => MessageKeepsSource(c.w, source, frame, id);
        case Fire(timer) => FireKeepsSource(c.w, timer, id);
        case _ =>
      }
    case _ =>
  }

  lemma MessageKeepsSource(w: IngestWorld, source: nat, frame: Option<Frame>, id: nat)
    requires WellFormed(w) && id < |w.chans|
    ensures var w' := StepMessage(IngestConfig(true), w, source, frame);
      id < |w'.chans| && w'.chans[id].source == w.chans[id].source
  {
    hide Reduce;
  }

  lemma ReleasedStays(c: Client, e: ClientEvent, id: nat)
    requires ClientInv(c, true) && Released(c.w, id)
    ensures Released(ClientStep(true, c, e).w, id)
  {
    hide StepOpened, StepApply, StepSubscribe, StepUnsubscribe, StepErrored, StepMessage, StepFire, StepUpdate;
    hide Inv, Released;
    InRange(c.w, true);
    match e
    case Transport(t) => StepKeepsReleased(IngestConfig(true), c.w, t, id);
    case Opens(source) =>
      if source in c.w.open {
        StepKeepsReleased(IngestConfig(true), c.w, Opened(source), id);
        OpenedKeepsInv(c.w, source, true);
        StepKeepsReleased(IngestConfig(true), StepOpened(c.w, source), Apply(|c.w.tickets|, s => s), id);
      }
    case Answer(ticket, snapshot) =>
      if snapshot.Some? && ticket < |c.asked| {
        var seqAtRequest := c.asked[ticket];
        StepKeepsReleased(IngestConfig(true), c.w, Apply(ticket, s => Resync(s, seqAtRequest, snapshot.value)), id);
      }
  }

  // Killed by errors, watched, and not reopened by a probe yet.
  ghost predicate Silent(w: IngestWorld, id: nat) {
    Mapped(w, id) && w.chans[id].source.None?
  }

  lemma SilentBefore(c: Client, e: ClientEvent, id: nat)
    requires ClientInv(c, true) && ClientInv(ClientStep(true, c, e), true)
    requires Silent(ClientStep(true, c, e).w, id) && !Kills(c, e, id)
    ensures Silent(c.w, id)
  {
    hide ClientStep, Inv;
    InRange(c.w, true);
    if id >= |c.w.chans| {
      NewHasSource(c, e, id);
    } else {
      if !Mapped(c.w, id) {
        ReleasedStays(c, e, id);
      } else if c.w.chans[id].source.Some? {
        SourceKept(c, e, id);
      }
    }
  }

  lemma NewHasSource(c: Client, e: ClientEvent, id: nat)
    requires ClientInv(c, true) && |c.w.chans| <= id < |ClientStep(true, c, e).w.chans|
    ensures ClientStep(true, c, e).w.chans[id].source.Some?
  {
    hide Step, Inv, StepOpens, StepAnswer;
    InRange(c.w, true);
    match e
    case Transport(t) =>
      if Plain(t) {
        if t.Subscribe? {
          MadeWithSource(c.w, t, id);
        } else {
          OnlySubscribeMakes(IngestConfig(true), c.w, t);
        }
      }
    case Opens(source) => OpensMakesNothing(c, source);
    case Answer(ticket, snapshot) => AnswerMakesNothing(c, ticket, snapshot);
  }

  lemma MadeWithSource(w: IngestWorld, t: IngestEvent, id: nat)
    requires WellFormed(w) && t.Subscribe? && |w.chans| <= id < |Step(IngestConfig(true), w, t).chans|
    ensures Step(IngestConfig(true), w, t).chans[id].source.Some?
  {
  }

  lemma NoFrameWhenSilent(c: Client, e: ClientEvent, id: nat)
    requires ClientInv(c, true) && Silent(c.w, id)
    ensures Delivered(c.w, e, id) == None
  {
    forall s | s in c.w.open
      ensures c.w.open[s].chan != id
    {
      assert SourceOk(c.w, s);
    }
  }

  ghost predicate LandedSince(events: seq<ClientEvent>, id: nat) {
    if events == [] then false
    else
      var earlier, e := events[..|events| - 1], events[|events| - 1];
      var c := ClientRun(true, earlier);
      Landed(c, e, id) || (!Kills(c, e, id) && LandedSince(earlier, id))
  }

  // So a channel that the errors have killed shows nothing until it is reopened, exactly
  // as long as no answer still in flight when it died lands.
  lemma {:induction false} DeadShowsNothingIff(events: seq<ClientEvent>, id: nat)
    requires Silent(ClientRun(true, events).w, id)
    ensures CacheOf(ClientRun(true, events).w, id).Some? <==> LandedSince(events, id)
  {
    hide ClientStep, Landed, Kills, Inv;
    if events != [] {
      var earlier, e := events[..|events| - 1], events[|events| - 1];
      var c := ClientRun(true, earlier);
      ShowsCounting(true, events, id);
      ShowsCounting(true, earlier, id);
      InRange(c.w, true);
      if Kills(c, e, id) {
        KillIsNotAnswer(c, e, id);
      } else {
        SilentBefore(c, e, id);
        NoFrameWhenSilent(c, e, id);
        DeadShowsNothingIff(earlier, id);
      }
    }
  }

  lemma KillIsNotAnswer(c: Client, e: ClientEvent, id: nat)
    requires WellFormed(c.w) && Kills(c, e, id)
    ensures !Brings(c, e, id) && !Landed(c, e, id)
  {
  }

  // ---- What the seq does not protect against ----

  ghost predicate ShowsPending(w: IngestWorld, id: nat, snapshot: Snapshot) {
    id < |w.chans| && CacheOf(w, id).Some? && CacheOf(w, id).value.pending == snapshot.pending
  }

  // Answers do not move the seq, so among answers it is the last to arrive that stays.
  // Take any two opens of a channel, of one EventSource or of two, with no frame from the
  // first of them on: the first request's answer, if it comes last, replaces the second's
  // newer one.
  lemma OlderAnswerOverwritesNewer(has: bool, before: seq<ClientEvent>, first: nat, between: seq<ClientEvent>,
      second: nat, after: seq<ClientEvent>, older: Snapshot, newer: Snapshot)
    requires first in ClientRun(has, before).w.open
    requires
      var mid := before + [Opens(first)] + between;
      var id, c := ClientRun(has, before).w.open[first].chan, ClientRun(has, mid + [Opens(second)] + after);
      && second in ClientRun(has, mid).w.open && ClientRun(has, mid).w.open[second].chan == id
      && Mapped(c.w, id) && |Frames(has, mid + [Opens(second)] + after, id)| == |Frames(has, before, id)|
    ensures
      var mid := before + [Opens(first)] + between;
      var id, c := ClientRun(has, before).w.open[first].chan, ClientRun(has, mid + [Opens(second)] + after);
      var c1 := StepAnswer(c, |ClientRun(has, mid).asked|, Some(newer));
      var c2 := StepAnswer(c1, |ClientRun(has, before).asked|, Some(older));
      ShowsPending(c1.w, id, newer) && ShowsPending(c2.w, id, older)
  {
    hide ClientRun, ClientStep, StepOpens, StepAnswer, Inv, Frames;
    var mid := before + [Opens(first)] + between;
    var run := mid + [Opens(second)] + after;
    var c, id := ClientRun(has, run), ClientRun(has, before).w.open[first].chan;
    var t1, t2 := |ClientRun(has, before).asked|, |ClientRun(has, mid).asked|;
    assert run == before + [Opens(first)] + (between + [Opens(second)] + after);
    TicketFacts(has, before, first, between + [Opens(second)] + after);
    TicketFacts(has, mid, second, after);
    FramesGrow(has, before, [Opens(first)] + between, id);
    FramesGrow(has, mid, [Opens(second)] + after, id);
    assert before + ([Opens(first)] + between) == mid && mid + ([Opens(second)] + after) == run;
    InRange(c.w, has);
    TicketKeysMatch(c.w, t1, has);
    TicketKeysMatch(c.w, t2, has);
    AnswerIsSeqGuarded(c, t2, newer);
    var c1 := StepAnswer(c, t2, Some(newer));
    AnswerKeepsTickets(c, t2, newer);
    AnswerKeepsSeq(c, t2, Some(newer), id);
    AnswerKeepsChannels(c, t2, newer);
    AnswerIsSeqGuarded(c1, t1, older);
  }

  lemma FramesGrow(has: bool, before: seq<ClientEvent>, after: seq<ClientEvent>, id: nat)
    ensures |Frames(has, before, id)| <= |Frames(has, before + after, id)|
  {
    RunExtends(has, before, after);
  }

  lemma AnswerKeepsChannels(c: Client, ticket: nat, snapshot: Snapshot)
    requires WellFormed(c.w)
    ensures WellFormed(StepAnswer(c, ticket, Some(snapshot)).w)
    ensures StepAnswer(c, ticket, Some(snapshot)).w.channels == c.w.channels
  {
  }

  // Death clears the count but not the seq, so an answer still in flight brings a
  // count back on a channel that is dead.
  lemma LateAnswerOutlivesDeath(has: bool, before: seq<ClientEvent>, source: nat, after: seq<ClientEvent>, snapshot: Snapshot)
    requires source in ClientRun(has, before).w.open
    requires
      var id := ClientRun(has, before).w.open[source].chan;
      var run := before + [Opens(source)] + after;
      && Mapped(ClientRun(has, run).w, id) && ClientRun(has, run).w.chans[id].state.dead
      && CacheOf(ClientRun(has, run).w, id).None? && |Frames(has, run, id)| == |Frames(has, before, id)|
    ensures
      var id := ClientRun(has, before).w.open[source].chan;
      var w' := StepAnswer(ClientRun(has, before + [Opens(source)] + after), |ClientRun(has, before).asked|, Some(snapshot)).w;
      && id < |w'.chans| && w'.chans[id].state.dead
      && CacheOf(w', id) == Some(CacheState(snapshot.pending, snapshot.bytes, 0))
  {
    hide ClientStep, StepOpens, StepAnswer, Inv, ClientRun;
    NewestWins(has, before, source, after, snapshot);
  }

  // One channel under "c", open for `now` ms, its one resync still unanswered.
  ghost predicate Solo(c: Client, now: nat, errors: nat, opens: nat) {
    && WellFormed(c.w) && c.w.now == now && c.w.channels == map["c" := 0] && |c.w.chans| == 1
    && 0 in c.w.open && c.w.open[0] == Holder("c", 0)
    && |c.asked| == |c.w.tickets| == opens
    && (forall t | 0 <= t < opens :: c.w.tickets[t] == Holder("c", 0) && c.asked[t] == 0)
    && var ch := c.w.chans[0];
      && ch.key == "c" && ch.errors == errors && ch.mountedAt == 0
      && ch.state.data.cacheState == None && ch.state.data.cacheStateSeq == 0
  }

  lemma ClientRunSnoc(has: bool, events: seq<ClientEvent>, e: ClientEvent)
    ensures ClientRun(has, events + [e]) == ClientStep(has, ClientRun(has, events), e)
  {
    hide ClientStep;
    assert (events + [e])[..|events|] == events;
  }

  lemma SoloSteps(c: Client, snapshot: Snapshot)
    requires ClientInv(c, true)
    ensures ClientStep(true, c, Opens(0)) == StepOpens(c, 0)
    ensures ClientStep(true, c, Transport(Errored(0))) == c.(w := StepErrored(IngestConfig(true), c.w, 0))
    ensures ClientStep(true, c, Answer(0, Some(snapshot))) == StepAnswer(c, 0, Some(snapshot))
    ensures ClientStep(true, c, Transport(Tick(STARTUP_GRACE_MS)))
      == c.(w := Step(IngestConfig(true), c.w, Tick(STARTUP_GRACE_MS)))
  {
    hide StepOpens, StepAnswer, StepErrored, Inv;
  }

  lemma SoloStarts()
    ensures Solo(ClientStep(true, ClientRun(true, []), Transport(Subscribe("c", 1, None))), 0, 0, 0)
  {
  }

  lemma SoloOpens(c: Client)
    requires Solo(c, 0, 0, 0)
    ensures Solo(StepOpens(c, 0), 0, 0, 1)
  {
  }

  lemma SoloWaits(c: Client)
    requires Solo(c, 0, 0, 1)
    ensures Solo(c.(w := Step(IngestConfig(true), c.w, Tick(STARTUP_GRACE_MS))), STARTUP_GRACE_MS, 0, 1)
  {
  }

  lemma SoloErrs(c: Client, errors: nat)
    requires Solo(c, STARTUP_GRACE_MS, errors, 1) && errors + 1 < MAX_CONSECUTIVE_ERRORS
    ensures Solo(c.(w := StepErrored(IngestConfig(true), c.w, 0)), STARTUP_GRACE_MS, errors + 1, 1)
  {
  }

  lemma SoloDies(c: Client, snapshot: Snapshot)
    requires Solo(c, STARTUP_GRACE_MS, MAX_CONSECUTIVE_ERRORS - 1, 1)
    ensures
      var died := c.(w := StepErrored(IngestConfig(true), c.w, 0));
      && WellFormed(died.w)
      && var w := StepAnswer(died, 0, Some(snapshot)).w;
        |w.chans| == 1 && w.chans[0].state.dead
        && CacheOf(w, 0) == Some(CacheState(snapshot.pending, snapshot.bytes, 0))
  {
  }

  // So "a dead channel shows no count" is false: subscribe, open, fail three times after
  // the grace window, and only then have the open's resync answered.
  lemma DeadChannelShowsCount(snapshot: Snapshot)
    ensures
      var error: ClientEvent := Transport(Errored(0));
      var run := [] + [Transport(Subscribe("c", 1, None))] + [Opens(0)] + [Transport(Tick(STARTUP_GRACE_MS))]
        + [error] + [error] + [error] + [Answer(0, Some(snapshot))];
      var w := ClientRun(true, run).w;
      && |w.chans| == 1 && w.chans[0].state.dead
      && CacheOf(w, 0) == Some(CacheState(snapshot.pending, snapshot.bytes, 0))
  {
    hide StepOpens, StepAnswer, ClientStep, Step, Solo, ClientRun, Inv;
    var error: ClientEvent := Transport(Errored(0));
    var r1 := [] + [Transport(Subscribe("c", 1, None))];
    var r2 := r1 + [Opens(0)];
    var r3 := r2 + [Transport(Tick(STARTUP_GRACE_MS))];
    var r4 := r3 + [error];
    var r5 := r4 + [error];
    var r6 := r5 + [error];
    ClientRunSnoc(true, [], Transport(Subscribe("c", 1, None)));
    SoloStarts();
    ClientRunSnoc(true, r1, Opens(0));
    SoloSteps(ClientRun(true, r1), snapshot);
    SoloOpens(ClientRun(true, r1));
    ClientRunSnoc(true, r2, Transport(Tick(STARTUP_GRACE_MS)));
    SoloSteps(ClientRun(true, r2), snapshot);
    SoloWaits(ClientRun(true, r2));
    ClientRunSnoc(true, r3, error);
    SoloSteps(ClientRun(true, r3), snapshot);
    SoloErrs(ClientRun(true, r3), 0);
    ClientRunSnoc(true, r4, error);
    SoloSteps(ClientRun(true, r4), snapshot);
    SoloErrs(ClientRun(true, r4), 1);
    ClientRunSnoc(true, r5, error);
    SoloSteps(ClientRun(true, r5), snapshot);
    SoloDies(ClientRun(true, r5), snapshot);
    ClientRunSnoc(true, r6, Answer(0, Some(snapshot)));
    SoloSteps(ClientRun(true, r6), snapshot);
  }

  lemma SoloReopens(c: Client, now: nat, errors: nat)
    requires Solo(c, now, errors, 1)
    ensures Solo(StepOpens(c, 0), now, 0, 2)
  {
  }

  lemma SoloAnswered(c: Client, now: nat, older: Snapshot, newer: Snapshot)
    requires Solo(c, now, 0, 2)
    ensures
      var c1 := StepAnswer(c, 1, Some(newer));
      && WellFormed(c1.w) && ShowsPending(c1.w, 0, newer)
      && ShowsPending(StepAnswer(c1, 0, Some(older)).w, 0, older)
  {
  }

  // The input a flaky network makes: open, lose the connection, open again before the
  // first answer is in, then the answers in the wrong order.
  lemma ReconnectShowsOlder(older: Snapshot, newer: Snapshot)
    ensures
      var run := [] + [Transport(Subscribe("c", 1, None))] + [Opens(0)] + [Transport(Tick(STARTUP_GRACE_MS))]
        + [Transport(Errored(0))] + [Opens(0)];
      ShowsPending(StepAnswer(StepAnswer(ClientRun(true, run), 1, Some(newer)), 0, Some(older)).w, 0, older)
  {
    hide StepOpens, StepAnswer, ClientStep, Step, Solo, ClientRun, Inv;
    var r1 := [] + [Transport(Subscribe("c", 1, None))];
    var r2 := r1 + [Opens(0)];
    var r3 := r2 + [Transport(Tick(STARTUP_GRACE_MS))];
    var r4 := r3 + [Transport(Errored(0))];
    ClientRunSnoc(true, [], Transport(Subscribe("c", 1, None)));
    SoloStarts();
    ClientRunSnoc(true, r1, Opens(0));
    SoloSteps(ClientRun(true, r1), older);
    SoloOpens(ClientRun(true, r1));
    ClientRunSnoc(true, r2, Transport(Tick(STARTUP_GRACE_MS)));
    SoloSteps(ClientRun(true, r2), older);
    SoloWaits(ClientRun(true, r2));
    ClientRunSnoc(true, r3, Transport(Errored(0)));
    SoloSteps(ClientRun(true, r3), older);
    SoloErrs(ClientRun(true, r3), 0);
    ClientRunSnoc(true, r4, Opens(0));
    SoloSteps(ClientRun(true, r4), older);
    SoloReopens(ClientRun(true, r4), STARTUP_GRACE_MS, 1);
    SoloAnswered(ClientRun(true, r4 + [Opens(0)]), STARTUP_GRACE_MS, older, newer);
  }

  lemma SoloTold(c: Client, cache: CacheState, at: string)
    requires Solo(c, 0, 0, 1)
    ensures
      var w1 := StepMessage(IngestConfig(true), c.w, 0, Some(CacheStateFrame(cache)));
      && WellFormed(w1)
      && var w2 := StepMessage(IngestConfig(true), w1, 0, Some(SaveTailStopped(at)));
        |w2.chans| == 1 && w2.chans[0].state.dead && CacheOf(w2, 0) == Some(cache)
  {
    hide Push;
  }

  lemma MessageStep(c: Client, frame: Frame)
    requires ClientInv(c, true)
    ensures ClientStep(true, c, Transport(Message(0, Some(frame))))
      == c.(w := StepMessage(IngestConfig(true), c.w, 0, Some(frame)))
  {
    hide StepMessage, Inv;
  }

  // And a dead channel with a count that no answer brought: a frame, then the tail stops.
  lemma TailStoppedShowsCount(cache: CacheState, at: string)
    ensures
      var run := [] + [Transport(Subscribe("c", 1, None))] + [Opens(0)]
        + [Transport(Message(0, Some(CacheStateFrame(cache))))] + [Transport(Message(0, Some(SaveTailStopped(at))))];
      var w := ClientRun(true, run).w;
      |w.chans| == 1 && w.chans[0].state.dead && CacheOf(w, 0) == Some(cache)
  {
    hide StepOpens, StepMessage, ClientStep, Step, Solo, ClientRun, Inv;
    var r1 := [] + [Transport(Subscribe("c", 1, None))];
    var r2 := r1 + [Opens(0)];
    var r3 := r2 + [Transport(Message(0, Some(CacheStateFrame(cache))))];
    ClientRunSnoc(true, [], Transport(Subscribe("c", 1, None)));
    SoloStarts();
    ClientRunSnoc(true, r1, Opens(0));
    SoloSteps(ClientRun(true, r1), Snapshot(0, 0));
    SoloOpens(ClientRun(true, r1));
    SoloTold(ClientRun(true, r2), cache, at);
    ClientRunSnoc(true, r2, Transport(Message(0, Some(CacheStateFrame(cache)))));
    MessageStep(ClientRun(true, r2), CacheStateFrame(cache));
    ClientRunSnoc(true, r3, Transport(Message(0, Some(SaveTailStopped(at)))));
    MessageStep(ClientRun(true, r3), SaveTailStopped(at));
  }
}
