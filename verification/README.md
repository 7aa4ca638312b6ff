# Negotiation coach core, modelled in Dafny

This project models the deterministic core of a real-time negotiation coach.
In the original system, a browser streams microphone audio over a websocket to
a Python server. The server:

- derives audio telemetry from each chunk;
- scores conversational tension 0..100 on a background tick loop;
- forwards the audio to a live speech agent;
- interrupts the agent when the user talks over it (barge-in);
- relays the agent's coaching whispers back to the browser.

The browser has a component that draws the tension as a coloured bar. It
also has a hook meant to show a coaching overlay once tension has stayed at 70
or above for two seconds. As written the hook can miss that moment (see
Findings), and the app shell mounts neither the component nor the hook.

The model covers:

- `Tension` (tension.dfy): the `TensionState` record and the scoring function
  `compute_tension_from_telemetry`. It includes the 30-entry RMS history, the
  silence episode start, the overlap counter, and the volume, silence and
  overlap components with their weights 0.5 / 0.3 / 0.2. It also has the
  ticks of `compute_tension_loop`. Each tick takes at most one queued sample,
  the oldest, and the `None` sentinel ends the loop (see Findings).
- `LiveClient` (live_client.dfy): the live-agent session.
  - `recv_events` as a transducer over the event queue. It synthesizes
    `agent_output_started` before the first transcript delta of a turn, and
    `None` ends the stream.
  - The `send_audio` / `stop_generation` / `close` guards of the real session.
  - The stub session's `inject_turn` / `agent_turns` / `recv_events` / `close`.
- `Handler` (handler.dfy): the websocket dispatcher.
  - Each frame type (invalid JSON, `start`, `stop`, `audio`, unknown) is
    modelled as a pure function from handler state to a new state plus a list
    of effects. The effects are messages sent, tasks spawned or cancelled,
    queue puts, and calls into the session.
  - The barge-in decision.
  - `consume_recv_events` and the agent-turn and tension consumers.
- `Coaching` (coaching.dfy): the five-move catalog, `get_move_by_id`, the
  fallback table, and the accept/reject decision of `generate_coaching`.
  The accepted whisper must be 4..20 words after stripping whitespace and
  quotes.
- `Overlay` (overlay.dfy): the `useCoachingOverlay` hook, as written and
  corrected (see Findings).
- `Visualizer` (visualizer.dfy): the pure functions of `TensionVisualizer`.
  These are the clamp, the bar width, the colour zone, the pulse, and the
  normalized value with its rounded ARIA level.
- `Text` (text.dfy): Python's `str.strip` and `len(str.split())` on Unicode
  whitespace.
- `Numeric` (numeric.dfy) and `Wrappers` (wrappers.dfy): helpers.

Modelling choices:

- Python floats are modelled as exact `real`s. `int()` on a non-negative
  float is `Floor`.
- Wall-clock time is a parameter `now`.
- The decoded length of a base64 chunk is given as an `Option<nat>`, with
  `None` for a chunk that fails to decode.
- The live agent's behaviour is the content of the event queue.
- Asynchronous tasks are abstracted to the effects that start, feed and
  cancel them.

## Model

| member | source | states |
|---|---|---|
| Tension.Update | apps/server/app/tension.py:41-52 | the silence start is set exactly while the latest sample is silent, and is kept for the whole episode; each overlap sample raises the counter by one; a non-silent sample is appended to the history, which keeps only its 30 most recent entries |
| Tension.Push | apps/server/app/tension.py:47-49 | appending then trimming to 30 leaves the last 30 of the extended history, ending with the new sample |
| Tension.Combine | apps/server/app/tension.py:65-67 | the weighted, floored score is always in 0..100, and is 50·v + 30·s + 20·o floored when every component is in [0, 1] |
| Tension.VolumeScore | apps/server/app/tension.py:56 | the volume component is at most 1, zero before any non-silent sample, not negative for a non-negative RMS, and full from an RMS of two thirds upwards |
| Tension.SilenceSeconds | apps/server/app/tension.py:59 | no episode, or one that started at time 0, counts zero seconds; an episode that started no later than the sample counts a non-negative time |
| Tension.SilenceScore | apps/server/app/tension.py:60 | the silence component is at most 1, zero for a non-silent sample, non-negative when the episode started no later than the sample, and full once the episode lasts 2.5 s |
| Tension.OverlapScore | apps/server/app/tension.py:63 | the overlap component is in 0..1, zero exactly when no overlap was counted, and full exactly from the fifth overlap on |
| Tension.Compute | apps/server/app/tension.py:36-67 | the score of any sample against any state is in 0..100, and the returned state is the updated one |
| Tension.ComponentsBounded | apps/server/app/tension.py:54-63 | each component is at most 1; volume and overlap are non-negative; silence is non-negative when time does not run backwards in an episode |
| Tension.VolumeOfCurrentSample | apps/server/app/tension.py:54-56 | the volume component is min(1, 1.5·rms) of the current sample, even a silent one, once any speech has been heard, and 0 before |
| Tension.Scores | apps/server/app/tension.py:36-67 | scoring a whole sequence of samples yields one score per sample, each in 0..100 |
| Tension.Replay | apps/server/app/tension.py:41-52 | after scoring a sequence, the last RMS is that of its last sample, the overlap counter never decreased, and the history stays within 30 entries |
| Tension.LastNOfLastN | apps/server/app/tension.py:47-49 | trimming after every append gives the same history as trimming once at the end |
| Tension.HistoryIsRecentNonSilent | apps/server/app/tension.py:47-49 | after any run of samples the history is the last 30 RMS values of the non-silent samples, in arrival order |
| Tension.OverlapCountIsCount | apps/server/app/tension.py:50-51 | after any run the overlap counter equals the number of overlap samples seen, and never decreases |
| Tension.SilenceEpisodeStart | apps/server/app/tension.py:42-46 | during a silence episode the recorded start is the timestamp of the episode's first silent sample |
| Tension.SilenceAccrual | apps/server/app/tension.py:58-60 | within one silence episode with non-decreasing timestamps the silence component never decreases and stays at most 1 |
| Tension.SilenceFromTimeZeroScoresNothing | apps/server/app/tension.py:59-60 | an episode that began at timestamp 0 accrues no silence, because the start is tested for truthiness |
| Tension.ScenarioQuietSpeech | apps/server/tests/test_tension.py:15-20 | speech at rms 0.1 scores 7, within the expected 0..30 |
| Tension.ScenarioLoudSpeech | apps/server/tests/test_tension.py:23-30 | rms 0.2 then 0.9 scores 50, at least the expected 40 |
| Tension.ScenarioLongSilence | apps/server/tests/test_tension.py:33-43 | silent samples three seconds apart score 30, at least the expected 20 |
| Tension.ScenarioRepeatedOverlap | apps/server/tests/test_tension.py:46-56 | four overlap samples then speech at rms 0.5 count 4 overlaps and score 53, at least the expected 30 |
| Tension.TickStep | apps/server/app/tension.py:80-93 | a tick exits exactly when the next queued item is the sentinel; otherwise it takes at most one item, the oldest, keeping the previous sample when the queue is empty; it emits nothing before the first sample, and afterwards exactly the tension of the kept sample |
| Tension.Ticks | apps/server/app/tension.py:80-93 | n ticks of the loop emit at most n scores, each in 0..100, and remove at most n queued items |
| Tension.ReplayCons | apps/server/app/tension.py:41-52 | replaying a first sample and then the rest is replaying the rest from the state after the first sample |
| Tension.ScoresCons | apps/server/app/tension.py:36-67 | the scores of a first sample and the rest are that sample's score followed by the rest's scores from the updated state |
| Tension.TicksScoreQueueInOrder | apps/server/app/tension.py:80-93 | ticking once per queued sample passes to `on_tension` exactly the scores of those samples in arrival order, leaves the state they build and the rest of the queue, and does not return |
| Tension.BacklogShrinksByOnePerTick | apps/server/app/tension.py:84-93 | as written, n ticks over a queue of n + k samples leave k of them waiting |
| Tension.OldestTelemetryScored | apps/server/app/tension.py:77-87 | as written, with two samples queued the tick scores the older and leaves the newer queued; the documented tick scores the newer and leaves nothing |
| Tension.Drain | apps/server/app/tension.py:77 | draining finds the sentinel exactly when one is queued, and otherwise the newest queued sample, or the previous one when nothing is queued |
| Tension.TickStepLatest | apps/server/app/tension.py:77-93 | corrected tick: it exits exactly when a sentinel is queued, otherwise it scores the newest queued sample and no backlog survives the tick |
| Tension.RetainedOverlapRecounted | apps/server/app/tension.py:80-93 | while no new telemetry arrives, the retained overlap sample is rescored each tick and raises the overlap count by one per tick |
| Text.Strip | apps/server/app/coaching.py:125 | the result is the input minus its maximal leading and trailing runs of the stripped characters, and neither end of a non-empty result is one of them |
| Text.StripIdempotent | apps/server/app/coaching.py:125 | stripping twice is the same as stripping once |
| Text.StripIsInfix | apps/server/app/websocket_handler.py:179 | `str.strip` keeps a contiguous piece of its input |
| Text.StripKeepsUntrimmed | apps/server/app/websocket_handler.py:179 | a string that neither starts nor ends with whitespace is left unchanged |
| Text.StripAllTrimmed | apps/server/app/websocket_handler.py:179-181 | a string made only of whitespace strips to empty, so such an audio chunk is ignored |
| Text.NoWordsIffBlank | apps/server/app/coaching.py:126 | a string has no words exactly when every character is whitespace |
| Text.WordsFrom | apps/server/app/coaching.py:126 | counting words from any position yields at most one word per two characters, counting the word that may start at once |
| Text.WordCount | apps/server/app/coaching.py:126 | `len(text.split())` is at most half the length rounded up, and at least one for a text that starts with a non-space |
| Text.WordCountSplitsAtSpace | apps/server/app/coaching.py:126 | the word count of two strings joined by whitespace is the sum of their word counts |
| Text.SingleWord | apps/server/app/coaching.py:126 | a non-empty string without whitespace is one word |
| LiveClient.UntilSentinel | apps/server/app/gemini_live_client.py:185-202 | the events queued before the first sentinel, in order |
| LiveClient.Transduce | apps/server/app/gemini_live_client.py:186-202 | `recv_events` yields nothing exactly when the first queued item is the sentinel or nothing is queued |
| LiveClient.Next | apps/server/app/gemini_live_client.py:197-202 | the generator's `agent_speaking` is cleared by `agent_output_stopped`, set by a transcript delta, and kept by other events |
| LiveClient.TransduceLength | apps/server/app/gemini_live_client.py:186-202 | every event before the sentinel is yielded, with at most one synthesized `agent_output_started` each |
| LiveClient.StreamIsQueueUpToSentinel | apps/server/app/gemini_live_client.py:185-202 | apart from the synthesized `agent_output_started` events, `recv_events` yields exactly the queued events up to the first sentinel, in order |
| LiveClient.SentinelEndsStream | apps/server/app/gemini_live_client.py:195-196 | nothing queued after a sentinel is ever yielded |
| LiveClient.TransduceAppend | apps/server/app/gemini_live_client.py:185-202 | the stream of a sentinel-free prefix followed by more items is the prefix's stream followed by the rest's, with the generator's `agent_speaking` carried across |
| LiveClient.StartedOnlyWhenSilent | apps/server/app/gemini_live_client.py:197-200 | at any position of the queue, a transcript delta comes right after the output of earlier items, preceded by a synthesized `agent_output_started` exactly when the generator was not already speaking |
| LiveClient.FreshStartAfterStop | apps/server/app/gemini_live_client.py:197-202 | at any position of the queue, after `agent_output_stopped` the following delta again gets a fresh `agent_output_started` |
| LiveClient.SpeakingAfterAppend | apps/server/app/websocket_handler.py:87-97 | the speaking flag after two batches of events is the flag after the second batch, started from the flag after the first |
| LiveClient.Observe | apps/server/app/websocket_handler.py:90-93 | the consumer's flag is set by `agent_output_started`, cleared by `agent_output_stopped`, and kept by deltas and errors |
| LiveClient.DeltaArrivesWhileSpeaking | apps/server/app/gemini_live_client.py:185-202 | every transcript delta in the stream arrives when a consumer tracking started/stopped already believes the agent is speaking |
| LiveClient.UpstreamEnded | apps/server/app/gemini_live_client.py:182-183 | when the upstream receive loop ends, the session stays open and one sentinel is queued behind its events |
| LiveClient.UpstreamEndKeepsQueuedEvents | apps/server/app/gemini_live_client.py:182-202 | after the upstream loop ends, `recv_events` still yields every event queued before its sentinel |
| LiveClient.SendAudio | apps/server/app/gemini_live_client.py:127-141 | a closed session or undecodable audio has no effect; otherwise the audio is forwarded, and an upstream failure queues exactly one error event carrying its message |
| LiveClient.SendFailureSurfaces | apps/server/app/gemini_live_client.py:138-141 | a failed upstream send is yielded by `recv_events` as one error event carrying its message, after every event already queued |
| LiveClient.StopGeneration | apps/server/app/gemini_live_client.py:143-152 | the session is marked interrupted and nothing else changes |
| LiveClient.Close | apps/server/app/gemini_live_client.py:204-218 | the session becomes closed and exactly one sentinel is appended to its queue |
| LiveClient.ClosedSessionIsInert | apps/server/app/gemini_live_client.py:127-206 | after `close`, a new `recv_events` iteration yields nothing, even events queued before the close, and `send_audio` forwards nothing; closing again changes neither |
| LiveClient.RecvEvents | apps/server/app/gemini_live_client.py:185-202 | a closed session yields nothing; an open one yields its queue up to the sentinel, plus the started markers |
| LiveClient.InjectTurn | apps/server/app/gemini_live_client.py:285-287 | a turn is queued only while the stub session is open; a closed session is unchanged |
| LiveClient.StubClose | apps/server/app/gemini_live_client.py:268-270 | the stub becomes closed with a sentinel appended to its event queue, turns untouched |
| LiveClient.StubRecvEvents | apps/server/app/gemini_live_client.py:258-266 | an open stub yields its queued events in order without markers, stopping exactly at the first sentinel or the end of the queue; a closed stub yields nothing |
| LiveClient.StubAgentTurns | apps/server/app/gemini_live_client.py:275-283 | an open stub yields its queued turns in order, stopping exactly at the first sentinel or the end of the queue; a closed stub yields nothing |
| LiveClient.InjectedTurnDelivered | apps/server/app/gemini_live_client.py:275-287 | a turn injected into an open stub comes out of `agent_turns` after all earlier ones |
| Handler.DeriveTelemetry | apps/server/app/websocket_handler.py:186-192 | the RMS proxy is in [0, 1]; a chunk under 100 bytes is silence; overlap is flagged exactly when the agent speaks and the proxy reaches the barge-in threshold |
| Handler.VolumeProxyMonotone | apps/server/app/websocket_handler.py:188 | a longer chunk never has a smaller RMS proxy |
| Handler.OnStart | apps/server/app/websocket_handler.py:131-145 | a second start outside mock mode is rejected with one error; outside mock mode `ready` is sent, the session is connected and the events consumer, the agent-turn consumer and the tension task are spawned and recorded, in that order and nothing else; in mock mode `ready` is sent and only the tension and mock tasks are spawned; start never ends the loop |
| Handler.OnStop | apps/server/app/websocket_handler.py:146-177 | stop ends running, sends `stopped` as its only and last message before leaving the loop, disconnects exactly when a session exists, cancels exactly the task held in each task variable, and puts the sentinel before cancelling the tension task |
| Handler.CancelIfOwned | apps/server/app/websocket_handler.py:148-175 | a task is cancelled exactly when its variable holds it, and the only other effect is the tension sentinel |
| Handler.Teardown | apps/server/app/websocket_handler.py:148-175 | the teardown of `stop` disconnects exactly when a session exists, cancels exactly the held tasks, and queues the sentinel right before cancelling the tension task |
| Handler.OnAudio | apps/server/app/websocket_handler.py:178-206 | an empty or undecodable chunk does nothing; otherwise telemetry is queued first; with a real session and the agent speaking loudly enough, generation is stopped and `interrupted` is sent before the audio is forwarded, and the speaking flag is cleared; with a real session and no barge-in exactly the telemetry is queued and the chunk forwarded, nothing else |
| Handler.Dispatch | apps/server/app/websocket_handler.py:122-208 | invalid JSON and unknown or non-string types answer exactly one error and change nothing |
| Handler.Run | apps/server/app/websocket_handler.py:123-208 | a loop that is not running reads nothing; the loop is left exactly when a running handler stops running |
| Handler.DispatchLifecycle | apps/server/app/websocket_handler.py:122-208 | only `stop` leaves the loop or clears running; only an accepted `start` outside mock mode connects and sets the session |
| Handler.MockNeverTouchesSession | apps/server/app/websocket_handler.py:131-145 | in mock mode no frame connects, stops generation or forwards audio |
| Handler.TerminateIsLast | apps/server/app/websocket_handler.py:146-177 | over any run of frames the loop is left at most once and only as the very last effect |
| Handler.AtMostOneConnect | apps/server/app/websocket_handler.py:131-145 | outside mock mode a whole session connects to the live agent at most once |
| Handler.SecondStartRejected | apps/server/app/websocket_handler.py:132-134 | a second `start` outside mock mode answers `Already started` and changes nothing |
| Handler.MockSecondStartAccepted | apps/server/app/websocket_handler.py:132-145 | in mock mode a second `start` is accepted and spawns another tension task |
| Handler.ConsumeEvent | apps/server/app/websocket_handler.py:81-101 | the consumer exits once not running; started/stopped set and clear the speaking flag; an error event forwards its message, or its text when the message is empty; nothing else is sent |
| Handler.ConsumeAll | apps/server/app/websocket_handler.py:81-101 | consuming events changes only the speaking flag |
| Handler.ConsumeAllTracksSpeaking | apps/server/app/websocket_handler.py:87-97 | after consuming events the handler's flag equals the started/stopped tracking of those events |
| Handler.HandlerSeesAgentSpeaking | apps/server/app/websocket_handler.py:81-101 | in a run where only the event consumer touches the flag (no barge-in in between), every transcript delta from a fresh `recv_events` reaches the handler while it believes the agent is speaking |
| Handler.ForwardTurn | apps/server/app/websocket_handler.py:55-79 | a turn with text becomes exactly one whisper carrying its text and move; an empty turn sends nothing |
| Handler.ForwardAll | apps/server/app/websocket_handler.py:55-79 | `consume_agent_turns` sends nothing once not running, at most one message per turn, and only whispers with text |
| Handler.TensionTick | apps/server/app/websocket_handler.py:47-50 | each tick sends at most one `tension` message, exactly when the loop emitted a score, and that message carries the emitted score |
| Handler.TensionRun | apps/server/app/websocket_handler.py:47-53 | n ticks of `run_tension_loop` send at most n messages, each a `tension` message with a score in 0..100 |
| Handler.TensionMessages | apps/server/app/websocket_handler.py:47-50 | one `tension` message per score, in order |
| Handler.TensionRunSendsTickScores | apps/server/app/websocket_handler.py:47-50 | over any number of ticks the messages sent are the scores the loop emitted, in order |
| Handler.TensionMessagesFollowQueue | apps/server/app/tension.py:80-93 | while the task works through queued samples, the `tension` messages carry the scores of those samples in arrival order |
| Handler.WithText | apps/server/app/websocket_handler.py:66 | the turns that carry text, each one taken from the input |
| Handler.Whispers | apps/server/app/websocket_handler.py:66-75 | one whisper per turn, carrying its text and move |
| Handler.ForwardAllWhispersTextTurns | apps/server/app/websocket_handler.py:55-79 | while running, `consume_agent_turns` sends exactly one whisper per turn with text, in order, and nothing for the others |
| Handler.AgentTurnsBecomeWhispers | apps/server/app/websocket_handler.py:55-79 | over the stub session's `agent_turns`, the whispers are exactly its queued turns with text, in order |
| Handler.LoudChunkBargesIn | apps/server/app/websocket_handler.py:197-205 | a full-scale chunk while the agent is believed speaking stops generation and clears the flag |
| Handler.LoudChunkIgnoredWhenSilent | apps/server/app/websocket_handler.py:197-198 | while the handler believes the agent silent, even a full-scale chunk stops nothing |
| Handler.BargeInLeavesTurnUnarmed | apps/server/app/websocket_handler.py:87-97 | as written, after a barge-in the next delta of the same turn arrives without a new `agent_output_started`, the flag stays clear, and a second loud chunk interrupts nothing |
| Handler.ConsumeEventFixed | apps/server/app/websocket_handler.py:87-97 | corrected consumer: a transcript delta marks the agent as speaking; every other event is handled as written |
| Handler.FixedFlagSetByDelta | apps/server/app/websocket_handler.py:87-97 | corrected: once any delta is consumed the handler believes the agent is speaking, whatever the flag was |
| Handler.FixedBargeInRearms | apps/server/app/websocket_handler.py:87-206 | corrected: after a barge-in, the next delta of the same turn arms barge-in again, and a second loud chunk interrupts the agent |
| Coaching.FindMove | apps/server/app/coaching.py:138-142 | no match exactly when no entry has the id; a match is a catalog entry with that id |
| Coaching.GetMoveById | apps/server/app/coaching.py:138-142 | `get_move_by_id` finds nothing exactly when no catalog entry has the id; otherwise it returns a catalog entry with that id and non-empty text |
| Coaching.CatalogIdsDistinct | apps/server/app/coaching.py:12-33 | catalog ids are pairwise distinct |
| Coaching.LookupFindsEveryEntry | apps/server/tests/test_coaching.py:17-24 | looking up any catalog id returns exactly that entry, with non-empty text |
| Coaching.UnknownIdNotFound | apps/server/tests/test_coaching.py:27-29 | an id outside the catalog is not found |
| Coaching.FallbackTargetsInCatalog | apps/server/tests/test_coaching.py:32-36 | every fallback target, and the default `slow_down`, is a catalog move |
| Coaching.Fallback | apps/server/app/coaching.py:131-135 | the fallback is the catalog entry for the trigger's fallback id, with non-empty text; the last-resort first entry is never used |
| Coaching.CleanText | apps/server/app/coaching.py:125 | the cleaned text is a contiguous piece of the model's response that neither starts nor ends with a single quote |
| Coaching.GenerateCoaching | apps/server/app/coaching.py:96-135 | a failed generation, or a cleaned text outside 4..20 words, gives the fallback; an acceptable cleaned text is returned tagged with the trigger; the result always has non-empty text |
| Coaching.TranscriptTail | apps/server/app/coaching.py:113 | the prompt sees the last min(500, length) characters of the transcript |
| Coaching.KnownFallbacks | apps/server/tests/test_coaching.py:40-80 | failed generation falls back to `slow_down`, `reflect_back` and `clarify_intent` for the three known triggers |
| Coaching.UnknownTriggerFallsBackToSlowDown | apps/server/app/coaching.py:131-135 | an unknown trigger falls back to `slow_down` |
| Overlay.Mount | apps/web/src/useCoachingOverlay.js:13-26 | on mount the overlay is hidden, and a timer starts exactly when tension is at least 70 |
| Overlay.Body | apps/web/src/useCoachingOverlay.js:18-36 | at or above 70 a ref is held and a timer starts only if no ref was held; below 70 any timer is cancelled; below 50 the overlay hides; from 50 up visibility is kept |
| Overlay.Cleanup | apps/web/src/useCoachingOverlay.js:37-39 | the cleanup stops the pending timeout but keeps the ref, and changes nothing else |
| Overlay.Step | apps/web/src/useCoachingOverlay.js:18-40 | a change to 70 or above leaves a ref held and starts a timer exactly when no ref was held (so a stale ref blocks it); a timer starts only when none is pending; the overlay appears only when a pending timer fires; a change below 70 cancels the timer; a change below 50 hides the overlay; a value of 50 or more never hides it |
| Overlay.StaleRefBlocksOverlay | apps/web/src/useCoachingOverlay.js:19-39 | as written, once a change while high has left a stale timer ref, no timer runs or starts while tension stays at 70 or above, and the overlay never appears |
| Overlay.HighTensionChangeLosesTimer | apps/web/src/useCoachingOverlay.js:19-39 | as written, tension 72 then 75 then the hold elapsing leaves the overlay hidden |
| Overlay.StepFixed | apps/web/src/useCoachingOverlay.js:18-40 | the corrected step keeps every guarantee of the as-written one, and a pending timer survives changes at or above 70 |
| Overlay.FixedHoldSurvivesChanges | apps/web/src/useCoachingOverlay.js:19-26 | corrected: once a timer is pending or the overlay shows, any run of high-tension changes keeps it so, and the overlay shows after the hold elapses |
| Overlay.FixedHighTensionChangeKeepsTimer | apps/web/src/useCoachingOverlay.js:19-26 | corrected: 72 then 75 then the hold elapsing shows the overlay |
| Visualizer.Clamped | apps/web/src/TensionVisualizer.jsx:8 | the clamped score is in 0..100, equals the score inside that range, and is the nearer bound outside it |
| Visualizer.BarWidth | apps/web/src/TensionVisualizer.jsx:9 | the bar width is in 0..100 percent, equals the score when the score is a valid percentage, and is empty below 0 and full above 100 |
| Visualizer.ZoneOf | apps/web/src/TensionVisualizer.jsx:13-17 | emerald exactly up to 30, amber exactly above 30 up to 60, coral exactly above 60 |
| Visualizer.ZoneMonotone | apps/web/src/TensionVisualizer.jsx:9-17 | a higher score never has a calmer colour or a narrower bar |
| Visualizer.Pulse | apps/web/src/TensionVisualizer.jsx:19 | the bar pulses exactly when the score exceeds 70 |
| Visualizer.PulseOnlyInCoral | apps/web/src/TensionVisualizer.jsx:13-19 | a pulsing bar is always coral |
| Visualizer.Normalized | apps/web/src/TensionVisualizer.jsx:10 | the normalized value is in [0, 10] and is exactly one tenth of the clamped score |
| Visualizer.AriaLevel | apps/web/src/TensionVisualizer.jsx:25 | the announced value is in [0, 10] and within 0.05 of the normalized value |

## Left out

- Asyncio concurrency is not modelled. This covers task scheduling, cancellation, awaiting cancelled tasks and the `finally` teardown on a dropped socket. Effects are an ordered list, and the consumers are separate step functions. The loop cannot observe what a consumer does while an `await` inside the barge-in branch is pending.
- The mock loop of the handler emits random tensions. Its randomness is outside any contract; only its spawning and cancellation are modelled.
- The google-genai client is not modelled. This covers connecting, the `_receive_loop` that probes response fields, and the exact prompt wording of `generate_coaching`. They call into a library whose behaviour is not visible. The live agent is the content of the event queue, and the generator is a `Failed | Generated(text)` outcome.
- A failure of `connect` while handling `start` is not modelled. The source lets it propagate.
- Non-object JSON frames and a non-string `base64` field in an audio frame are not modelled. The source raises on a non-object frame and on a truthy non-string `base64` (at `.strip()`); a falsy one (`0`, `false`, `[]`, `{}`) becomes `""` and the frame is ignored, as an empty chunk is.
- Base64 decoding is not modelled. The frame carries the decoded length, or `None` when decoding fails.
- The stub session's `send_audio` and `stop_generation` are no-ops and are not modelled. The stub session is what a non-mock server connects to when neither `GOOGLE_CLOUD_PROJECT` nor `GOOGLE_API_KEY` is set (gemini_live_client.py:297-301). Against it the handler's `SendAudio` and `StopGeneration` effects reach no agent, and its events consumer sees only what is queued on the stub, up to the close sentinel.
- Wall-clock time is the parameter `now`. The 2000 ms overlay hold is the abstract event `TimerFired`, because timers are I/O.
- Floats are exact reals. Rounding of the floating-point products before `int()` is not modelled.
- Tension.TickStep: does not model the `interval_sec` (0.5 s) sleep between ticks, because time is outside the model. A tick with an empty queue is a `get_nowait` that finds nothing.
- Handler.TensionRun and Handler.ForwardAll stamp every message of a run with one clock reading `now`. In the source each message reads the clock when it is sent.
- Handler.OnStop: a second `start` in mock mode overwrites the tension and mock task variables. `stop` then cancels only the newest pair; the first tension loop runs until it reads the sentinel, and the first mock loop until its next wake. The model tracks which task variables are set (`tasks` is a set), so it does not represent the orphaned tasks.
- Handler.HandlerSeesAgentSpeaking: holds only for runs with no barge-in between the deltas. A barge-in clears the handler's flag while `recv_events` keeps its own, which is the second row of Findings.
- The rest of the web client is not modelled: audio capture, webcam, the websocket hook, the app shell, the RMS meter and the whisper overlay component. Nor are the server entry point and smoke test. These are I/O and rendering, with no decision logic of their own.
- `useCoachingOverlay` is modelled, but the app shell does not mount it.
- No smoothing, cooldown or score history: the scoring code has none.

## Findings

| source | as written | input that shows it | evidently intended | confidence | as-written member | corrected member |
|---|---|---|---|---|---|---|
| apps/web/src/useCoachingOverlay.js:37-39 | The effect's cleanup clears the pending timeout when tension changes but keeps `timerRef` set. No new timer can then start until tension drops below 70. | Tension 72, then 75 within two seconds, then two seconds pass: the overlay never appears. | The overlay shows once tension has stayed at or above 70 for two seconds. | not executed | Overlay.StaleRefBlocksOverlay | Overlay.FixedHoldSurvivesChanges |
| apps/server/app/websocket_handler.py:205 | A barge-in clears the handler's `agent_output_started`, but `recv_events` keeps its own `agent_speaking` (gemini_live_client.py:197-202). Further deltas of the same turn therefore come without a new `agent_output_started`. | The agent speaks, a loud chunk barges in, the agent's next delta arrives, then another loud chunk: the second chunk interrupts nothing until the agent ends its turn. | Barge-in stays armed while the agent keeps producing output. | not executed; only matters if the agent keeps streaming after the activity-end signal | Handler.BargeInLeavesTurnUnarmed | Handler.FixedBargeInRearms |
| apps/server/app/tension.py:84-93 | Each 0.5 s tick takes one item from the front of an unbounded queue (`get_nowait`), so it scores the oldest waiting sample. The loop's own documentation (:77) says it takes the latest telemetry. | Two samples queued between ticks: the older is scored and the newer waits. Audio chunks arrive every 40 ms, far faster than one per tick, so the backlog grows and the score lags further behind the audio. | Each tick scores the newest queued sample, leaving no backlog. | not executed | Tension.OldestTelemetryScored | Tension.TickStepLatest |
