# CK3 Chronicler: verified protocols

CK3 Chronicler watches a running Crusader Kings III game, ingests its events into per-campaign
databases and shows them in a browser. This project models the parts of it that keep state while
several things happen at once, and proves what they promise over every run:

- **Live stream, browser side.** `ChannelSpec` is the ref-counted EventSource store as a transition
  system over any sequence of subscribes, unsubscribes, opens, errors, messages, timer fires,
  `apply` calls and clock ticks; `ChannelRuns`, `ChannelHistory` and `ChannelFlags` prove its
  invariants, its history (death, backoff, release) and what it reports; `ChannelStore` is the store written field by field and proved
  against the transition system. `IngestStream` is the ingest frame reducer with the tail badge, and
  `ResyncRace` the REST resync that races the stream.
- **Live stream, server side.** `EventBusSpec`, `EventBusRuns`, `EventBusMembers` and `EventBus` are the drop-oldest
  fan-out with publishes marshalled from other threads; `SseWire` prints frames and parses them with
  the algorithm of sections 9.2.5 and 9.2.6 of the WHATWG HTML standard, and `JsonText` shows that the
  printed text determines the event; `EventStream` is the generator loop with its heartbeat and
  disconnect polling.
- **Log pipeline.** `LogBuffer` (ring and cursor polling), `LogStream` (the browser's buffer under any
  mix of backfills and live frames), `LogPipeline` (both, end to end).
- **Shared state.** `Orchestrator` (the ingest task registry), `EngineCache` (double-checked
  locking), `SettingsStore` (read, merge, write under a lock).
- **Data structures.** `TintCache` (LRU), `Recolour` (the in-place pixel pass) and
  `Doubles` (the binary64 arithmetic of its scaling, bit for bit), `NavHistory` (capped,
  squashing history), `Lineage`, `LineageTree` and `LineagePlaces` (layout and edges of the family
  tree, and who stands where).
- **Parsers and replay.** `IssueReady` (the "Blocked by" scanner and the ready filter), `Snippet`
  (the highlighter's split), `Ingest` (idempotent event ingest).

`Options`, `Sequences` and `Text` hold what several modules share.

Where the source changes state step by step there is a class or a method with the same steps, whose
contract ties the new state to a function of the old; what the source promises is then proved about
that function, over whole runs. Steps the environment cannot take (an event from a closed
EventSource, a timer already cleared) leave the state alone, so that a run is any sequence of steps.

## Where the code and its promises part

Each of these is a lemma.

- A dead channel can still show a count: death clears it but does not advance `cacheStateSeq`, so that an
  answer still in flight lands (`ResyncRace.LateAnswerOutlivesDeath`, `ResyncRace.DeadChannelShowsCount`); and
  a tail that stops leaves the count of its last frame (`ResyncRace.TailStoppedShowsCount`).
  `ResyncRace.ShowsCountIff` says for every run when a channel shows a count, `ResyncRace.DeadShowsNothingIff`
  when one that the errors killed shows none.
- Among answers the last to arrive wins, even when it is the older one: any two opens with no frame since the
  first will do (`ResyncRace.OlderAnswerOverwritesNewer`), for one a connection lost and found again
  (`ResyncRace.ReconnectShowsOlder`). `ResyncRace.NewestWins` says exactly when an answer lands.
- Two subscribers that pass one callback share its place in the notifier set, and the first to leave
  silences the other (`ChannelHistory.SharedNotifierIsSilenced`); `ChannelHistory.KeptUnlessShared` says
  that no other step does.
- `log_buffer.py` documents filtering after slicing; the code filters first, and a buffered record with an
  unknown level makes a filtered call raise (`LogBuffer.OrdersDiffer`, `LogBuffer.LogBufferHandler.Recent`). `LogBuffer.OrdersAgree` says exactly
  when the two orders give the same answer.
- `useLogStream.ts` lines 12-13 say the stream heals after a restart. After the backend restarts every
  frame is dropped until its numbering passes the old one (`LogPipeline.RestartIsSilent`, which says which
  frames change nothing and what the others add).
- A backfill read before the stream joined, or one whose first page starts past what has arrived, leaves a
  hole for good (`LogPipeline.EarlyColdLoadLeavesHole`); `LogPipeline.ColdLoadIsComplete` says exactly when the
  page shows the newest 2000 records.
- `_on_done` pops by campaign and not by task, so a switch away and back before the callback runs
  orphans a live ingest and then doubles it (`Orchestrator.ThereAndBackOrphans`,
  `Orchestrator.ThereAndBackDoubles`); `Orchestrator.KeptUnlessSuperseded` says exactly which step
  breaks the property.
- The comment in `setSelectedCharacterId` says a push without a change of view stands alone. It does exactly
  when the stack is empty or its top is another page (`NavHistory.SelectStandsAlone`); of several selections
  in a row on one page only the last can be gone back to (`NavHistory.TwoSelectsForgetTheFirst`,
  `NavHistory.FirstSelectionIsLost`).
- The scaling rounds halves up, except where the product of doubles has come out below the half
  (`Doubles.HalvesUpUnlessShort`): 45 * (7 / 10) is stored as 31 (`Doubles.TieFallsShort`).
- The family-tree route sends the relation `concubinist`, and the page draws nobody of that relation
  (`Lineage.ConcubinistIsNotDrawn`); `Lineage.DrawnIffNamed` says exactly who is drawn.
- The route does not compare its lists. A parent who is also the spouse is drawn twice and has no edge as a
  parent (`LineageTree.MotherIsCut`); `LineageTree.DrawnTreeIsRooted` says exactly when everybody reaches
  the seed.
- `issue-ready.py` line 24 allows at most 3 spaces of indent. The limit holds only for a line with a bullet, a
  number or bold: an undecorated marker declares at any depth (`IssueReady.IndentLimit`).

## Model

| member | source | states |
|---|---|---|
| ChannelRuns.StepKeepsInv | frontend/src/api/sseChannelStore.ts:99-243 | every step keeps the store's invariant: a mapped channel's refCount is its number of outstanding subscriptions and at least 1, it has exactly one of an open source and a pending timer, sources and timers point back at the mapped channel that holds them |
| ChannelRuns.RunKeepsInv | frontend/src/api/sseChannelStore.ts:99-243 | the invariant holds after every run from the empty store |
| ChannelHistory.OthersUntouched | frontend/src/api/sseChannelStore.ts:112-243 | a step changes no channel but the one it is aimed at, nor that channel's timers |
| ChannelHistory.ReleasedForEver | frontend/src/api/sseChannelStore.ts:214-229 | once released, a channel's record is never written again and no source or timer ever refers to it, even when its key is opened again |
| ChannelHistory.RunOnSchedule | frontend/src/api/sseChannelStore.ts:112-169 | in every run the error count is the number of errors outside the grace window since the last open, and the next delay and the pending probe's due time follow from their times |
| ChannelHistory.DeathNeedsThreeErrors | frontend/src/api/sseChannelStore.ts:146-169 | a watched channel without a source has had at least three errors since it last opened, all after the grace window, and its probe is due one backoff after the last |
| ChannelHistory.ProbeFailureIsFatal | frontend/src/api/sseChannelStore.ts:22-34 | a failed probe is never absorbed by the grace window: it closes the source and the next probe waits min(10000 * 2^k, 300000) ms for the k-th failure |
| ChannelHistory.DoubledBackoff | frontend/src/api/sseChannelStore.ts:112-123 | doubling under the ceiling is the closed form min(10000 * 2^k, 300000) |
| ChannelHistory.ChangeIsAnnounced | frontend/src/api/sseChannelStore.ts:101-181 | a step that changes a channel's state notifies everyone registered on it exactly once |
| ChannelFlags.ConnectedIff | frontend/src/api/sseChannelStore.ts:129-169 | with hooks and callers that leave the flags alone, in every run a channel is connected exactly when it has opened and no error past the five seconds' grace has come since |
| ChannelFlags.DeadIff | frontend/src/api/sseChannelStore.ts:129-169 | and dead exactly when three such errors have come with no open since the first of them |
| ChannelFlags.ErrorReports | frontend/src/api/sseChannelStore.ts:146-169 | whatever the hooks do: an error inside the grace leaves the state, the first two failures disconnect, the third marks dead and hands that to the hook |
| ChannelFlags.OpenReports | frontend/src/api/sseChannelStore.ts:129-144 | an open reports connected and alive and keeps the data |
| ChannelFlags.CallersWrite | frontend/src/api/sseChannelStore.ts:136-143 | an update, and an apply while its channel is the mapped one, applies the function to the state once; any other call leaves it |
| ChannelFlags.MessageIsReduced | frontend/src/api/sseChannelStore.ts:171-212 | in every run a frame is reduced with the context of the subscriber that made the channel, whoever joined since; one that does not parse changes nothing |
| ChannelHistory.KeptUnlessShared | frontend/src/api/sseChannelStore.ts:232-239 | a step keeps the notifier set equal to the outstanding subscribers' callbacks exactly when it is not an unsubscribe of one whose callback another outstanding subscription on the channel shares |
| ChannelHistory.NotifiersAreSubscribers | frontend/src/api/sseChannelStore.ts:232-239 | so in every run without such a step the notifier set is exactly the outstanding subscribers' callbacks |
| ChannelHistory.FreshCallbacksSuffice | frontend/src/api/sseChannelStore.ts:232-239 | subscribing only with callbacks not yet registered on the key is enough |
| ChannelHistory.SharedNotifierIsSilenced | frontend/src/api/sseChannelStore.ts:232-239 | with a shared callback that fails: two subscribe, one leaves, and the one that stays is no longer notified |
| ChannelStore.SseChannelStore.Connect | frontend/src/api/sseChannelStore.ts:125-128 | opens a source for the channel and changes nothing else |
| ChannelStore.SseChannelStore.ScheduleReconnect | frontend/src/api/sseChannelStore.ts:112-123 | arms a probe at the current delay and doubles the delay up to the ceiling, unless one is armed |
| ChannelStore.SseChannelStore.OpenChannel | frontend/src/api/sseChannelStore.ts:183-212 | joins the mapped channel or makes one with refCount 1 |
| ChannelStore.SseChannelStore.ReleaseChannel | frontend/src/api/sseChannelStore.ts:214-229 | the last leaver closes the source, clears the timer and unmaps the key |
| ChannelStore.SseChannelStore.Subscribe | frontend/src/api/sseChannelStore.ts:232-239 | takes the model's subscribe step and keeps the invariant |
| ChannelStore.SseChannelStore.Unsubscribe | frontend/src/api/sseChannelStore.ts:232-239 | takes the model's unsubscribe step and keeps the invariant |
| ChannelStore.SseChannelStore.OnOpen | frontend/src/api/sseChannelStore.ts:129-144 | resets errors and delay, marks the channel connected, hands out an `apply` closure |
| ChannelStore.SseChannelStore.OnError | frontend/src/api/sseChannelStore.ts:146-169 | ignores an error inside the grace window, counts it otherwise, dies on the third |
| ChannelStore.SseChannelStore.OnMessage | frontend/src/api/sseChannelStore.ts:171-180 | a frame that parses is reduced into the state and announced, any other is dropped |
| ChannelStore.SseChannelStore.OnTimer | frontend/src/api/sseChannelStore.ts:112-123 | a due probe reconnects only a channel still mapped and without a source |
| ChannelStore.SseChannelStore.RunApply | frontend/src/api/sseChannelStore.ts:136-143 | a late `apply` touches only the channel it was made for, and only while that is mapped |
| ChannelStore.SseChannelStore.Update | frontend/src/api/sseChannelStore.ts:243-248 | an update from outside rewrites and announces the mapped channel, or does nothing |
| ChannelStore.SseChannelStore.GetState | frontend/src/api/sseChannelStore.ts:240-242 | the state of the channel under the key, if there is one |
| IngestStream.FoldBuffers | frontend/src/api/useEventStream.ts:268-374 | after any frames the buffer is the newest bufferSize buffered ones, newest first, and each counter has grown by the number of frames of its kind |
| IngestStream.FoldLatestTick | frontend/src/api/useEventStream.ts:268-374 | cache state and last pair are what the newest frame of that kind said |
| IngestStream.FoldLatestAlarm | frontend/src/api/useEventStream.ts:268-374 | the last foreign drop is the newest one's; the recovery window is what the newest recovery frame opened, or none if it closed it |
| IngestStream.FoldLatestResume | frontend/src/api/useEventStream.ts:268-374 | the resume banner holds what the newest resume frame said, numbered by how many there were |
| IngestStream.FoldSettled | frontend/src/api/useEventStream.ts:247-253 | dead exactly when the newest frame that speaks of the tail says it stopped: only a frame a live tail sends clears it |
| IngestStream.FoldConnected | frontend/src/api/useEventStream.ts:247-374 | a stopped tail disconnects, the first frame of a live one after that reconnects, no other frame touches the flag |
| IngestStream.WrongGameBadge | frontend/src/shell/tailStatus.ts:28-60 | after any frames the badge is wrong-game exactly when the tail has not stopped, no recovery is open, and the newest foreign drop is strictly later than the newest tick |
| IngestStream.EveryBadge | frontend/src/shell/tailStatus.ts:28-60 | after any frames, for each of the six badges, exactly when it shows |
| IngestStream.OnlyEventsBuffered | frontend/src/api/useEventStream.ts:199-237 | whatever frames of the kinds this backend publishes arrive, the buffer is the newest bufferSize event_ingested frames, newest first |
| ResyncRace.SeqCountsFrames | frontend/src/api/useEventStream.ts:285-289 | in every run a channel's seq is the number of cache_state frames it has received |
| ResyncRace.NewestWins | frontend/src/api/useEventStream.ts:382-441 | for any run after an open, that open's answer is shown exactly when its channel is still the one under its key and has had no frame since; otherwise no channel changes |
| ResyncRace.ShownIsCurrent | frontend/src/api/useEventStream.ts:382-441 | in every run a channel shows nothing, its newest frame, or an answer asked for after that frame |
| ResyncRace.ShowsCountIff | frontend/src/api/useEventStream.ts:382-441 | in every run a channel shows a count exactly when a cache_state frame or a landed answer has come since its last error-caused death |
| ResyncRace.DeadShowsNothingIff | frontend/src/api/useEventStream.ts:418-441 | a channel the errors have killed, until it is reopened, shows a count exactly when an answer asked for before the death has landed after it |
| ResyncRace.OlderAnswerOverwritesNewer | frontend/src/api/useEventStream.ts:382-416 | for any two opens of a channel, of one EventSource or two, and anything but frames from the first on: the first's answer, arriving last, replaces the second's newer one |
| ResyncRace.ReconnectShowsOlder | frontend/src/api/useEventStream.ts:382-416 | a concrete run: open, error, open again, and the answers in the wrong order |
| ResyncRace.LateAnswerOutlivesDeath | frontend/src/api/useEventStream.ts:418-441 | in any run where a channel died with no frame since the request, the answer puts a count on the dead channel |
| ResyncRace.DeadChannelShowsCount | frontend/src/api/useEventStream.ts:418-441 | a concrete run that ends dead and showing a count, brought by a late answer |
| ResyncRace.TailStoppedShowsCount | frontend/src/api/useEventStream.ts:268-374 | a concrete run that ends dead and showing a count with no answer at all: a frame, then the tail stops |
| EventBusRuns.QueueAccounts | src/chronicler/api/events.py:76-129 | in every run each queue is the tail of what was enqueued to it, enqueued = consumed + dropped + queued, its length is within the limit, and it dropped once per enqueue that found it full |
| EventBusRuns.KeepingUpLosesNothing | src/chronicler/api/events.py:115-129 | a consumer loses nothing exactly when no enqueue found its queue full; an unlimited queue never drops |
| EventBusRuns.PublisherOrderKept | src/chronicler/api/events.py:76-113 | what a queue got from one thread, followed by what is still on its way, is what that thread published to it, in order |
| EventBusRuns.SentToSubscribers | src/chronicler/api/events.py:76-113 | a publish reaches each subscriber of its campaign once and nobody else |
| EventBusRuns.UnsubscribeReleases | src/chronicler/api/events.py:136-166 | unsubscribing removes the queue from every campaign |
| EventBusRuns.GoneForEver | src/chronicler/api/events.py:136-166 | a removed queue is never published to again, whatever follows |
| EventBusMembers.MembersAreSubscribed | src/chronicler/api/events.py:136-166 | in every run a campaign's subscribers are exactly the queues registered for it whose own unsubscribe has not come since |
| EventBusMembers.PublishReaches | src/chronicler/api/events.py:76-113 | so after any run a publish is sent once to each of those and to nobody else, at once when it is on the loop |
| EventBusMembers.WorkerFinishes | src/chronicler/api/events.py:76-113 | a worker that goes on hands all its deliveries to the loop, in order, and is out of publish |
| EventBusMembers.LoopCatchesUp | src/chronicler/api/events.py:76-113 | a loop that goes on empties its callbacks, and each queue gets what was meant for it, in order |
| EventBusMembers.AttachedIff | src/chronicler/api/events.py:64-74 | the loop is in use exactly once it has been attached |
| EventBus.EventBus.AttachLoop | src/chronicler/api/events.py:64-74 | from here on publishes from other threads go through the loop |
| EventBus.EventBus.EnqueueOne | src/chronicler/api/events.py:115-129 | a full queue gives up its oldest item and takes the new one |
| EventBus.EventBus.Publish | src/chronicler/api/events.py:76-113 | takes the model's publish step for some enumeration of the subscribers |
| EventBus.EventBus.ScheduleNext | src/chronicler/api/events.py:76-113 | hands the next delivery of a worker's publish to the loop |
| EventBus.EventBus.RunNextCallback | src/chronicler/api/events.py:76-113 | the loop runs the oldest scheduled delivery |
| EventBus.EventBus.Register | src/chronicler/api/events.py:136-166 | a new empty queue among the campaign's subscribers |
| EventBus.EventBus.Unsubscribe | src/chronicler/api/events.py:136-166 | takes the queue out and drops a campaign left without subscribers |
| EventBus.EventBus.Get | src/chronicler/api/events.py:168-190 | the consumer gets the oldest queued event |
| EventBus.EventBus.SubscriberCount | src/chronicler/api/events.py:131-134 | the number of queues registered for the campaign |
| SseWire.DumpsPrintable | src/chronicler/api/sse.py:70-77 | a JSON dump holds no line break, so that one data line carries it whole |
| SseWire.FeedConcat | src/chronicler/api/sse.py:70-77 | parsing is incremental: how the stream is cut into reads does not matter |
| SseWire.WireRoundTrip | src/chronicler/api/sse.py:70-77 | any comments, pings and data frames, written out and parsed by the standard's algorithm, give one message per data frame with its event's JSON text, in order |
| JsonText.DumpsDetermines | src/chronicler/api/sse.py:70-77 | a printed value can be read off the front of a document in only one way: its text determines it |
| JsonText.MessagesDetermineEvents | src/chronicler/api/sse.py:70-77 | so two streams that a browser parses into the same messages carry the same events |
| EventStream.EventStream | src/chronicler/api/sse.py:137-170 | the generator loop computes the model's stream and writes exactly its chunks |
| EventStream.StreamRoundTrip | src/chronicler/api/sse.py:111-170 | whatever the loop's timing, a client parses exactly the dequeued events' JSON texts, in order |
| EventStream.ServeOutput | src/chronicler/api/sse.py:137-170 | the stream yields the opening comment and then exactly what the turns say: a ping when two seconds are up, each event that comes within its slice at the time it comes, nothing once the client has gone; a browser reads exactly those events |
| EventStream.HeartbeatsOnTime | src/chronicler/api/sse.py:137-170 | when only the queue wait passes time, the k-th ping goes out exactly 2k seconds after the start |
| EventStream.DisconnectNoticed | src/chronicler/api/sse.py:137-170 | for a client that goes at any time: polls are at most half a second apart, the stream is closed exactly when a poll finds the client gone, and its clock never gets half a second past that moment |
| LogBuffer.LogBufferHandler.Emit | src/chronicler/api/log_buffer.py:95-112 | the ring stays the last maxlen records, numbered from 1 without a gap; a record that fails to format is skipped and takes no number |
| LogBuffer.LogBufferHandler.Recent | src/chronicler/api/log_buffer.py:116-136 | filter by level, then the last `limit`; fails exactly when a buffered level is unknown |
| LogBuffer.LevelsAre | src/chronicler/api/log_buffer.py:116-136 | a filter knows exactly the five standard levels, in the order of their severity |
| LogBuffer.OrdersAgree | src/chronicler/api/log_buffer.py:116-136 | filtering before slicing and after give the same answer exactly when the slice is all loud or nothing before it is |
| LogBuffer.OrdersDiffer | src/chronicler/api/log_buffer.py:116-136 | an error, then a debug line, one line asked for: the code finds the error, the documented order nothing; and a level name the code does not know |
| LogBuffer.LogBufferHandler.Since | src/chronicler/api/log_buffer.py:138-150 | exactly the records after the cursor that the ring still holds, and the newest number |
| LogBuffer.PollingDelivers | src/chronicler/api/log_buffer.py:138-150 | polling from the returned cursor delivers no record twice, none out of order, and skips only evicted ones |
| LogBuffer.PollCatchesUp | src/chronicler/api/log_buffer.py:138-150 | a poll brings the poller up to date: everything not yet seen, or the last ring's worth of it |
| LogBuffer.LogIsEmitted | src/chronicler/api/log_buffer.py:95-112 | the log polled is what was emitted, in order, numbered on |
| LogBuffer.KeepingUpDeliversAll | src/chronicler/api/log_buffer.py:138-150 | a poller that never lags a whole ring behind delivers every record |
| LogStream.BufferIsNewest | frontend/src/api/useLogStream.ts:39-82 | under any mix of backfills and live frames the capped buffer is the last 2000 entries of the unbounded sorted one, all at most lastSeenSeq |
| LogStream.BufferAscending | frontend/src/api/useLogStream.ts:39-82 | the buffer is strictly ascending when no backfill repeats a number within itself |
| LogStream.SeedAscendingIff | frontend/src/api/useLogStream.ts:68-82 | a backfill keeps the order strict exactly when its unseen part has distinct numbers |
| LogPipeline.FramesExtend | frontend/src/api/useLogStream.ts:39-48 | live frames append exactly the records numbered past lastSeenSeq, up to the cap |
| LogPipeline.SessionShows | frontend/src/pages/LogsPage.tsx:35-54 | what a session of join, frames, backfill and more frames shows, in closed form for every timing |
| LogPipeline.ColdLoadIsComplete | frontend/src/pages/LogsPage.tsx:35-54 | the page shows the newest 2000 records exactly when the backfill was read no earlier than the join and reaches back to what had arrived, or the hole lies below the newest 2000 |
| LogPipeline.EarlyColdLoadLeavesHole | frontend/src/pages/LogsPage.tsx:35-54 | two sessions over three records: a backfill from before the join loses the second, a backfill that starts past everything arrived loses the first |
| LogPipeline.RestartIsSilent | frontend/src/api/useLogStream.ts:39-48 | records i+1..j of a restarted log change nothing exactly when none is numbered past lastSeenSeq, and otherwise exactly those past it are appended |
| Orchestrator.KeptUnlessSuperseded | src/chronicler/orchestrator.py:208-300 | "every active task is its campaign's registered one" survives a step exactly when that is not the done-callback of a superseded task |
| Orchestrator.PromptRunsAreSingle | src/chronicler/orchestrator.py:278-297 | it holds in every run in which all of a campaign's callbacks are delivered before it is spawned again |
| Orchestrator.AtMostOne | src/chronicler/orchestrator.py:208-300 | so a campaign has at most one active ingest task |
| Orchestrator.ThereAndBackOrphans | src/chronicler/orchestrator.py:223-297 | a concrete A to B to A run leaves an active task nobody has registered |
| Orchestrator.ThereAndBackDoubles | src/chronicler/orchestrator.py:223-297 | one more spawn gives two active tasks for A, and shutdown does not cancel the orphan |
| Orchestrator.WhoCancels | src/chronicler/orchestrator.py:235-252 | only shutdown or a switch from the task's own campaign to another cancels, and only a registered live task: a self-switch never does |
| Orchestrator.OtherCampaignsUntouched | src/chronicler/orchestrator.py:208-300 | a step about other campaigns leaves this one's entries alone |
| Orchestrator.RegistryHolds | src/chronicler/orchestrator.py:208-300 | in every run a campaign has exactly the ingest task, and exactly the scheduler, filed under it last and not dropped since by a callback of one of its tasks or by a switch away |
| Orchestrator.TaskAfter | src/chronicler/orchestrator.py:223-337 | what a step does to a task: it is cancelled exactly when it runs, is its campaign's registered one, and shutdown or a switch to another campaign comes; it ends and is reaped by its own events only |
| Orchestrator.IngestRegistry.SpawnSaveIngest | src/chronicler/orchestrator.py:208-300 | registers a new task unless a live one is registered |
| Orchestrator.IngestRegistry.OnDoneCallback | src/chronicler/orchestrator.py:278-297 | pops the campaign's entries, whichever task they belong to |
| Orchestrator.IngestRegistry.CancelAll | src/chronicler/orchestrator.py:329-337 | shutdown cancels every registered running task and no other |
| Orchestrator.IngestRegistry.SwitchTo | src/chronicler/orchestrator.py:223-260 | spawns for the other campaign, then pops and cancels this one's live task |
| EngineCache.RunKeepsInv | src/chronicler/api/dependencies.py:37-59 | under any interleaving of lookups and evictions every engine is in the cache, in the lock holder's hands, popped for disposal, or disposed, and the lock is held exactly by the thread inside |
| EngineCache.StoreNeverOverwrites | src/chronicler/api/dependencies.py:37-59 | a thread about to store finds no entry for its campaign, and storing loses no cached engine |
| EngineCache.OneInside | src/chronicler/api/dependencies.py:37-59 | at most one thread is inside the lock |
| EngineCache.NothingLeaks | src/chronicler/api/dependencies.py:37-76 | once all calls are done an engine is disposed exactly when it is not cached |
| EngineCache.OneLiveEngine | src/chronicler/api/dependencies.py:37-76 | two undisposed engines of one campaign only coexist while one of them is being disposed |
| EngineCache.AnswersMatch | src/chronicler/api/dependencies.py:37-59 | every call returns an engine of the campaign it asked for |
| EngineCache.UndisturbedFactoryFor | src/chronicler/api/dependencies.py:37-59 | run without interference the steps return the cached engine, or make, store and return one |
| EngineCache.UndisturbedEvict | src/chronicler/api/dependencies.py:66-76 | run without interference evict drops the entry and disposes its engine |
| SettingsStore.Linearizable | src/chronicler/settings_store.py:50-104 | under any interleaving the file is the fold of the committed merges in lock order, each call returns its own prefix of it, and every lock-free read is one of those states |
| SettingsStore.ReadersNeverWait | src/chronicler/settings_store.py:50-63 | a reader gets what is on disk at any moment, whoever holds the lock |
| SettingsStore.NoUpdateIsLost | src/chronicler/settings_store.py:86-104 | each key has what the last update that names it said, or its initial value: disjoint updates and unknown keys survive |
| SettingsStore.UndisturbedUpdate | src/chronicler/settings_store.py:66-104 | a call with nobody in its way leaves on disk, and returns, the old settings overlaid with its updates, where null removes |
| SettingsStore.FailedWritesChangeNothing | src/chronicler/settings_store.py:66-83 | over any run after any other, the file, its history and the answers are what they were as long as no replace succeeds |
| SettingsStore.FailedCallLetsGo | src/chronicler/settings_store.py:66-104 | a call whose write fails lets go of the lock, leaves the file alone and returns nothing |
| SettingsStore.StrandedByFailedRemovals | src/chronicler/settings_store.py:66-83 | in every run a temp file is left behind exactly by a failed write whose removal failed too |
| SettingsStore.NoTempLeft | src/chronicler/settings_store.py:66-83 | once all calls are done the lock is free and no temp file is left but those whose removal failed |
| SettingsStore.MergeInto | src/chronicler/settings_store.py:86-104 | the loop computes the key-wise merge in which None deletes |
| TintCache.CacheIsRecent | frontend/src/components/useTintedTexture.ts:57-75 | after any gets and sets the cache is the 256 most recently touched keys in order of last touch, with their last values |
| TintCache.RecencyMeansLastTouch | frontend/src/components/useTintedTexture.ts:57-75 | the recency list is sorted by last touch, holds each touched key once, and holds nothing else |
| TintCache.HitIffRecent | frontend/src/components/useTintedTexture.ts:57-65 | a touched key hits exactly when fewer than 256 others were touched after it, and then with its last value |
| TintCache.UntouchedMisses | frontend/src/components/useTintedTexture.ts:57-65 | a key never set misses |
| TintCache.CacheKeyInjective | frontend/src/components/useTintedTexture.ts:77-82 | equal keys mean the same url and slots, even when the url contains the separator |
| TintCache.HitIsCorrect | frontend/src/components/useTintedTexture.ts:89-116 | a hit is always the recolouring of the requested texture and slots |
| TintCache.LruCache.CacheGet | frontend/src/components/useTintedTexture.ts:57-65 | answers from the map and moves a hit to the recent end |
| TintCache.LruCache.CacheSet | frontend/src/components/useTintedTexture.ts:67-75 | enters at the recent end and evicts the oldest beyond 256 |
| Recolour.ComputeMaxBOnly | frontend/src/components/useTintedTexture.ts:134-143 | the greatest blue among the pixels with alpha at least 128 and no red |
| Recolour.RecolourPixels | frontend/src/components/useTintedTexture.ts:171-209 | the in-place loop leaves the pure per-pixel map of the original image, scaled in doubles as the source does |
| Recolour.TintedIsRecoloured | frontend/src/components/useTintedTexture.ts:171-209 | pixel by pixel: transparent ones stay, ones without a slot turn transparent, ones without red that are less blue than the bluest are dimmed, all others take the slot's colour as it is; alpha is kept and trailing bytes stay |
| Recolour.MaxBOnlyUnique | frontend/src/components/useTintedTexture.ts:134-143 | the greatest such blue is determined by the image |
| Recolour.NoSlotIff | frontend/src/components/useTintedTexture.ts:235-261 | a pixel gets no slot exactly when it is black or no slot is given |
| Recolour.WhichSlot | frontend/src/components/useTintedTexture.ts:235-261 | with three colours given: grey takes the third, red and green the second, red the first, blue without red the third, a mixed pixel that of its greatest channel |
| Recolour.MissingSlot | frontend/src/components/useTintedTexture.ts:235-261 | a pixel whose slot is not given takes the first given of the three |
| Recolour.AlphaKeptOrCleared | frontend/src/components/useTintedTexture.ts:171-209 | alpha is kept, or cleared exactly when the visible pixel gets no slot |
| Doubles.ScaledIsNearest | frontend/src/components/useTintedTexture.ts:171-209 | for every byte triple the two rounding errors of the doubles never carry a scaled channel past an integer nearest to c * b / maxB |
| Doubles.HalvesUpUnlessShort | frontend/src/components/useTintedTexture.ts:171-209 | it is the nearest with halves up exactly when it is no tie on which the doubles' product falls short, and then one less |
| Doubles.TieFallsShort | frontend/src/components/useTintedTexture.ts:171-209 | 45 * (7 / 10) is 31 where halves up gives 32 |
| Recolour.NeverBrighter | frontend/src/components/useTintedTexture.ts:171-209 | no channel exceeds the slot colour's |
| Recolour.BlueIsMonotone | frontend/src/components/useTintedTexture.ts:171-209 | on blue-only pixels the output grows with b and reaches the slot colour at maxB |
| Recolour.EmblemPrimaryIsColor1 | frontend/src/components/useTintedTexture.ts:281-283 | through the emblem mapping a pure blue pixel takes color1, pure red color2, yellow color3 |
| NavHistory.HistoryIsTidy | frontend/src/store/appStore.ts:122-128 | in every session no two neighbours share a view, the top is not where the user is, and at most 20 entries are kept |
| NavHistory.BackMoves | frontend/src/store/appStore.ts:198-207 | back with any history left goes somewhere else |
| NavHistory.BackTwiceChangesPage | frontend/src/store/appStore.ts:122-128 | two backs in a row land on different views |
| NavHistory.SelectStandsAlone | frontend/src/store/appStore.ts:179-196 | a selection's push stands on top of what was there exactly when there was nothing or an entry of another view; below the cap exactly then does the stack grow |
| NavHistory.TwoSelectsForgetTheFirst | frontend/src/store/appStore.ts:179-196 | two selections in a row leave what the second alone would have left, so no back reaches where the first was made from |
| NavHistory.FirstSelectionIsLost | frontend/src/store/appStore.ts:179-196 | from a cold load: two selections, and no number of backs shows the page without one |
| NavHistory.BackUndoes | frontend/src/store/appStore.ts:139-207 | back right after an effective setView or setSelectedCharacterId restores both view and character |
| NavHistory.StepTracks | frontend/src/store/appStore.ts:122-207 | one step keeps the capped history a suffix of the unbounded one exactly when it is not a back on a stack the cap has emptied |
| NavHistory.TracksUntilForgotten | frontend/src/store/appStore.ts:122-207 | so every back lands where unbounded history would, until one is pressed on an emptied stack |
| NavHistory.AppStore.constructor | frontend/src/store/appStore.ts:90-100 | a cold load lands on Library with no history and the persisted theme and campaign |
| NavHistory.AppStore.SetViewTo | frontend/src/store/appStore.ts:139-150 | takes the model's view step |
| NavHistory.AppStore.SetSelectedCharacterId | frontend/src/store/appStore.ts:179-196 | takes the model's selection step |
| NavHistory.AppStore.Back | frontend/src/store/appStore.ts:198-207 | takes the model's back step |
| NavHistory.AppStore.SetActiveCampaign | frontend/src/store/appStore.ts:164-177 | clears character and history, lands on the given view or the default, and persists when storage accepts |
| NavHistory.AppStore.SetTheme | frontend/src/store/appStore.ts:155-158 | sets the theme and persists it with the campaign when storage accepts |
| Lineage.LayoutTree | frontend/src/pages/LineagePage.tsx:354-512 | for every tree: the model's edges and marriage line, all spots moved as one, every rectangle inside the padded viewport, no two overlapping and the viewport no larger than that takes; the fixed empty layout without a tree |
| Lineage.Group | frontend/src/pages/LineagePage.tsx:514-522 | pushing people into the map groups them by generation in order |
| Lineage.PlaceRow | frontend/src/pages/LineagePage.tsx:524-542 | appends the row's spots, centred on 0 |
| Lineage.SpotsAreRowMajor | frontend/src/pages/LineagePage.tsx:389-407 | rows run downwards and each spot lies at least one column right of the one before it in its row |
| Lineage.RowIsCentred | frontend/src/pages/LineagePage.tsx:524-542 | mirrored columns of a row lie equally far from 0 |
| Lineage.ShiftFits | frontend/src/pages/LineagePage.tsx:493-512 | after the shift every rectangle is inside the padding and no two overlap |
| Lineage.Shift | frontend/src/pages/LineagePage.tsx:503-509 | the loop moves every spot by the same offset |
| Lineage.NearestByX | frontend/src/pages/LineagePage.tsx:544-559 | the loop returns the model's nearest, or nothing for an empty row |
| Lineage.NearestIsFirstNearest | frontend/src/pages/LineagePage.tsx:544-559 | that is a nearest one, and the first of those as near |
| Lineage.Connect | frontend/src/pages/LineagePage.tsx:411-475 | the edge loops compute the model's edges |
| Lineage.DrawnIffNamed | frontend/src/pages/LineagePage.tsx:377-407 | for every tree, a person is drawn in its row exactly when that is not row 0 or the relation is one the page names |
| Lineage.ConcubinistIsNotDrawn | frontend/src/pages/LineagePage.tsx:389-407 | a tree with a concubinist, which the route sends, has no spot for that person |
| LineagePlaces.RowReads | frontend/src/pages/LineagePage.tsx:377-407 | for every tree as sent each row is, from left to right: siblings in reverse, the seed, partners; elsewhere that generation's people in their order; columns 260 apart and centred, rows 130 apart |
| LineagePlaces.DrawnBesideIff | frontend/src/pages/LineagePage.tsx:389-407 | a spouse or sibling is drawn exactly when the relation is one of the six the page names |
| LineagePlaces.KinIsDrawn | frontend/src/pages/LineagePage.tsx:377-407 | every ancestor and descendant is drawn, 130 pixels a generation above or below |
| LineagePlaces.SiblingsRunLeft | frontend/src/pages/LineagePage.tsx:389-407 | of two siblings the later in the lists stands further left |
| LineagePlaces.PartnersRunRight | frontend/src/pages/LineagePage.tsx:389-407 | of two partners the later stands further right |
| LineagePlaces.KinRunRight | frontend/src/pages/LineagePage.tsx:389-407 | and so of two relatives of one generation |
| LineagePlaces.SidesOfSeed | frontend/src/pages/LineagePage.tsx:389-407 | in row 0 exactly sibling and half_sibling stand left of the seed, exactly spouse, former_spouse, concubine and betrothed right of it, and the seed alone has the focus |
| LineageTree.EveryNodeIsTied | frontend/src/pages/LineagePage.tsx:411-475 | when every parent's id is looked up in the parents' row, every node outside row 0 has exactly one edge, to the seed from the rows beside it and else to the first nearest by x one row closer; the edges number exactly those nodes |
| LineageTree.EverybodyReachesSeed | frontend/src/pages/LineagePage.tsx:411-475 | then every such node reaches the seed in as many edges as it is rows away |
| LineageTree.TreeStands | frontend/src/pages/LineagePage.tsx:377-407 | of any tree as the route sends it, with or without people in two lists, the placed nodes are kin at their distance from row 0, each once in a row, the seed once, and row 0 in its order |
| LineageTree.DrawnTreeIsRooted | frontend/src/pages/LineagePage.tsx:354-512 | in the layout of any tree as sent every node outside row 0 reaches the seed exactly when no parent is also a descendant or drawn in row 0 |
| LineageTree.MotherIsCut | frontend/src/pages/LineagePage.tsx:409-431 | a mother who is also the spouse: no edge starts from her place in the parents' row |
| LineageTree.MarriageLineJoins | frontend/src/pages/LineagePage.tsx:477-491 | the line joins the seed and the last place of the first spouse, left to right, and is missing exactly when that spouse is drawn nowhere |
| LineageTree.MarriageRunsRight | frontend/src/pages/LineagePage.tsx:477-491 | to a spouse of a named kind that is in no other list it runs right from the seed by whole columns |
| LineageTree.SeedBetween | frontend/src/pages/LineagePage.tsx:389-407 | siblings lie left of the seed and partners right of it by whole columns, and nobody else is in row 0 |
| IssueReady.PrefixRefs | tools/issue-ready.py:54-70 | the scanning loop terminates and computes the model's references |
| IssueReady.PrintedListIsRead | tools/issue-ready.py:48-70 | any list of '#n' in accepted joints followed by text that does not carry it on is read as exactly those numbers |
| IssueReady.LeadingRefIff | tools/issue-ready.py:48-49 | a reference is read exactly where spaces or tabs, '#' and at least one digit stand, with all the digits that follow |
| IssueReady.ContinuationIff | tools/issue-ready.py:50-52 | a list goes on exactly at one of , ; / & + or the whole word 'and', or at spaces before a '#' and a digit |
| IssueReady.OnePassFindsMatch | tools/issue-ready.py:34-40 | wherever the line pattern matches, a single pass without backtracking finds the marker there |
| IssueReady.DeclaresIffMatches | tools/issue-ready.py:34-40 | a line declares exactly when the pattern has a match |
| IssueReady.TailIs | tools/issue-ready.py:34-40 | after the marker come blanks, at most one colon, blanks, and bold if it stands there; the list starts after that |
| IssueReady.IndentLimit | tools/issue-ready.py:34-40 | an undecorated marker declares at any indent; after more than 3 blanks nothing else does |
| IssueReady.DeclarationIsRead | tools/issue-ready.py:34-70 | a line with any accepted opening, colon and bold declares exactly the listed references |
| IssueReady.BlockedBy | tools/issue-ready.py:99-109 | the loop over lines computes the body's blockers; a missing body has none |
| IssueReady.BlockersAreDeclared | tools/issue-ready.py:99-109 | a number blocks exactly when some line of the body declares it |
| IssueReady.FilterReady | tools/issue-ready.py:121-138 | keeps, in order, the issues that are unassigned, not held and not blocked by an open issue |
| IssueReady.ReadyIff | tools/issue-ready.py:121-138 | an issue is kept exactly when nobody has it, it is not labelled deferred and no open issue blocks it |
| IssueReady.ReadyInOrder | tools/issue-ready.py:121-138 | kept issues stand in the order they came in |
| IssueReady.ClosingUnblocks | tools/issue-ready.py:121-138 | closing an issue unreadies no other, and newly ready are exactly those it alone was blocking |
| Snippet.NextIsLeftmost | frontend/src/pages/SearchPage.tsx:336-344 | the next match is the leftmost opening that is closed, with its nearest close |
| Snippet.RenderHighlightedSnippet | frontend/src/pages/SearchPage.tsx:336-353 | the loop terminates and computes the model's pieces |
| Snippet.NothingIsLost | frontend/src/pages/SearchPage.tsx:336-353 | the pieces with their tags put back are the snippet |
| Snippet.PartsAreCanonical | frontend/src/pages/SearchPage.tsx:336-353 | no empty or neighbouring plain pieces, no close inside a mark, no tag pair inside a plain piece |
| Snippet.CutUndoesMarkup | frontend/src/pages/SearchPage.tsx:336-353 | any canonical pieces written out are cut back into themselves |
| Ingest.MergeParticipants | src/chronicler/ingest_common.py:63-81 | the nested loops keep each pair once, in append order |
| Ingest.FirstOccurrenceOrder | src/chronicler/ingest_common.py:63-81 | merged pairs stand in the order in which each first appears |
| Ingest.WhoTakesPart | src/chronicler/ingest_common.py:46-81 | a call's participants are the scope's pairs and, for a death with one, the killer |
| Ingest.KillerFirstOrLast | src/chronicler/ingest_common.py:84-165 | the killer stands first or last as the transport asks |
| Ingest.MergeAssociative | src/chronicler/ingest_common.py:63-81 | grouping the sources differently changes nothing |
| Ingest.EventStore.InsertEventIdempotent | src/chronicler/db/repository.py:90-140 | inserts a row with a new id exactly when no row has its key |
| Ingest.EventStore.IngestEvent | src/chronicler/ingest_common.py:84-165 | takes the model's step: characters, row, last seen event, biography, hooks |
| Ingest.OnlyFirstCallsCount | src/chronicler/ingest_common.py:84-165 | in any sequence of calls the rows, biographies, skips and announced ids come, in order, from the first call with each key and from no other |
| Ingest.CharactersAreNamed | src/chronicler/ingest_common.py:84-165 | everybody a call names, replays included, has a character row, and nobody else |
| Ingest.ReplayIsHarmless | src/chronicler/ingest_common.py:84-165 | replaying known keys, in any order, stores, schedules and announces nothing |
| Ingest.LastSeenIsNewest | src/chronicler/ingest_common.py:84-165 | a character's last seen event is its newest row, and only characters with a row have one |

## Left out

- ChannelStore.SseChannelStore.Subscribe: channels, like queues and tasks elsewhere, are records at an identity in a sequence; two references to one object are two equal identities.
- ChannelStore.SseChannelStore.Unsubscribe: requires that the function was not called before; calling it twice is outside the intended use.
- A notifier that calls back into the store while it is being notified, `reset()` and the test helpers.
- An EventSource that the browser closes by itself: after a fatal HTTP error it is closed for good, in or out of the grace window, so that one or two errors leave a channel without a probe.
- IngestStream.WrongGameBadge: a time stamp is what Date makes of it; parsing it is not modelled.
- JSON parsing in the browser and JSON floats on the server.
- EventStream.EventStream: registering the queue before the first yield and unsubscribing at the end are not modelled.
- EventStream.HeartbeatsOnTime: a wait that overshoots its slice is not modelled; only the queue wait passes time.
- Orchestrator.IngestRegistry.SpawnSaveIngest: what the ingest coroutine does between its start and its end is one step.
- EngineCache.RunKeepsInv: `dispose_all` and the lazy scheduler cache are not modelled.
- SettingsStore.Linearizable: values other than null are kept as uninterpreted JSON text.
- Recolour.RecolourPixels: channels are naturals; that they are bytes is required only where a lemma needs it.
- TintCache.HitIsCorrect: colours are as the source formats them into the key; decoding and `toDataURL` are left to a function of the request.
- Lineage.LayoutTree: columns are integers because half a column is 130; the `byId` map is given as the lookup it serves.
- IssueReady.DeclaresIffMatches: case folding, digits and word characters are ASCII; Python's are Unicode.
- IssueReady.ClosingUnblocks: assumes issue numbers are distinct.
- The priority buckets and titles of `format_output`, and every call to `gh`.
- Ingest.EventStore.InsertEventIdempotent: an event's id is its place in the table; gaps in the database's own numbering are not modelled.
- Ingest.EventStore.IngestEvent: payloads are their canonical JSON text; how a character row is hydrated is left to the transports.
- `db/backfills.py` and `cost.py`: a marker per campaign and sums over a table, whose properties are short.
- React rendering, animation, HTTP wrappers, the database engine, operating system signals and the command line.
