# Streaming transcription server core, modelled in Dafny

This project models the three decision cores of a real-time transcription
server that receives raw PCM audio over WebSockets, cuts it into chunks,
asks a voice-activity detector (VAD) whether speech has ended, and sends back
transcripts produced by a pool of speech-recognition (ASR) engines:

- **Buffering** (`buffering.dfy`, `buffering_properties.dfy`): the
  `SilenceAtEndOfChunk` strategy. The synchronous `process_audio` threshold
  check (nothing / drop the live buffer on overload / exit on overload with
  `error_if_not_realtime` / hand the live buffer to the scratch buffer and
  start one finalize pass), and the finalize pass `process_audio_async`,
  split into the events that resume it: VAD result, engine free, and
  transcription outcome. Ingest may interleave between those events. Seconds
  are `real`s. A `Ledger` records the received stream and the stream offset
  of every buffered byte; it is bookkeeping added by the model so that the
  invariant can state that the two buffers never share a byte and keep
  stream order.
- **Engine pool** (`model_pool.dfy`): the sizing formula
  `max(1, floor(0.8 * M / F))` with its failure fallbacks, and the bounded
  FIFO queue of engine handles with `acquire`, `release` and the
  `async with` protocol.
- **Admission and dispatch** (`server.dfy`, `auth.dfy`): API-key extraction
  from the parsed query string, the `4001` close decisions, the registry
  insert and the guaranteed removal in `finally`, and the per-frame dispatch
  of the receive loop.

`client.dfy` holds the session record and its three operations
(`src/client.py` is not part of this model): `append_audio_data` appends to
the live buffer, `update_config` records the update in arrival order, and
`increment_file_counter` adds one to the counter. `base.dfy` holds
`Option`/`Result` and two small helpers.

The engines, the transport and the clock are inputs: the VAD result is a
sequence of segments, the transcription outcome is a text or an exception,
the elapsed processing time is a `real`, the device-memory query is an
`Option<nat>`, the fresh client id is a parameter, and a connection is the
sequence of frames its client sends.

The pass has two event-level machines. `Buffering.StepAsWritten` and
`Buffering.RunAsWritten` handle every exception inside a pass the way the
code does: the flag stays raised. `Buffering.Step` and `Buffering.Run` use
the corrected handling, which clears the flag (see "## Findings"). For the
code as written, `Buffering.RunPreservesInvAsWritten` shows that after any
run of events:

- the processing flag is raised while a pass is running, so at most one
  pass is in flight;
- a transcribing pass holds a checked-out engine;
- the pool keeps its capacity invariant;
- the scratch buffer is an in-order selection of the received stream,
  lying wholly before the live buffer.

For the corrected machine, `Buffering.RunPreservesInv` adds the converse:
the flag is raised only while a pass is running.
`BufferingProperties.CorrectedInvFailsAsWritten` shows that the code as
written does not keep that converse.

In two places the model follows the code where one might expect otherwise.
An empty VAD result clears the live buffer as well as the scratch buffer
(src/buffering_strategy/buffering_strategies.py:125-126). A frame of
unexpected type still reaches the threshold check (src/server.py:67-73).

## Model

| member | source | states |
|---|---|---|
| Auth.ValidateApiKey | core/auth.py:4-9 | a key is accepted exactly when some entry of the configured list equals it, and rejected exactly when none does; it reads nothing else |
| Auth.ApiKeys | core/config.py:27-32 | the configured list has exactly one entry, the value of `TARA_API_KEY` (none when it is unset) |
| Auth.OnlyConfiguredKeyAccepted | core/config.py:27-32 | with the list `[TARA_API_KEY]`, the one accepted key is the value of `TARA_API_KEY` |
| Auth.UnsetKeyRejectsAll | core/config.py:27-32 | when `TARA_API_KEY` is unset the list is `[None]` and every presented key is rejected |
| ModelPool.AvailableMemory | src/asr/model_pool.py:10-20 | a failed memory query counts as zero free bytes, a successful one as the reported free bytes |
| ModelPool.PoolSize | src/asr/model_pool.py:29-34 | sizing fails exactly for a zero per-engine footprint (division by zero) and otherwise yields at least one engine |
| ModelPool.ComputeModelPoolSize | src/asr/model_pool.py:23-34 | start-up sizing succeeds exactly for a non-zero footprint, is at least one, and is exactly one when the memory query fails |
| ModelPool.PoolSizeIsIntegerQuotient | src/asr/model_pool.py:29-34 | for a positive footprint F and M free bytes the size equals `max(1, (4M) div (5F))`, i.e. `max(1, floor(0.8 M / F))` |
| ModelPool.PoolSizeExamples | src/asr/model_pool.py:29-34 | M=10000, F=2000 gives 4; M=1000, F=10000 is clamped to 1 |
| ModelPool.PoolSizeMonotone | src/asr/model_pool.py:29-34 | for a fixed positive footprint, more free memory never gives a smaller pool |
| ModelPool.NewPool | src/asr/model_pool.py:38-42 | the pool starts with `pool_size` distinct handles, none checked out, capacity `pool_size`, and satisfies the capacity invariant when `pool_size >= 1` |
| ModelPool.Acquire | src/asr/model_pool.py:44-45 | blocks exactly on an empty queue; otherwise returns the front handle, which nobody else holds, and keeps available + checked-out = capacity |
| ModelPool.Release | src/asr/model_pool.py:47-48 | raises QueueFull exactly on a full queue; otherwise appends the handle at the back; releasing a checked-out handle of a valid pool always succeeds and keeps the invariant |
| ModelPool.ExhaustedPoolBlocks | src/asr/model_pool.py:44-45 | with all capacity handles checked out the next acquire waits |
| ModelPool.AcquiredHandleIsExclusive | src/asr/model_pool.py:44-45 | an acquired handle is neither checked out by another caller nor still queued |
| ModelPool.Enter | src/asr/model_pool.py:50-52 | `__aenter__` acquires the front handle and remembers it on the pool |
| ModelPool.Exit | src/asr/model_pool.py:54-55 | `__aexit__` releases the remembered handle, and fails when none was remembered |
| ModelPool.EnterThenExitRestores | src/asr/model_pool.py:50-55 | a sequential enter then exit succeeds and leaves the queue's handles (as a multiset), the checked-out set and the invariant as before |
| Buffering.NewStrategy | src/buffering_strategy/buffering_strategies.py:28-60 | a new strategy keeps its three settings and starts with the flag clear |
| Buffering.AudioDuration | src/buffering_strategy/buffering_strategies.py:148-150 | the duration times the byte rate is the scratch length, and for a positive byte rate it is positive exactly when the scratch buffer is non-empty |
| Buffering.ChunkLengthInBytes | src/buffering_strategy/buffering_strategies.py:75-79 | the threshold is the chunk length in seconds times the session's bytes per second |
| Buffering.OverThreshold | src/buffering_strategy/buffering_strategies.py:80 | for a positive byte rate, the live buffer is over the threshold exactly when it holds strictly more than `chunk_length_seconds` of audio |
| Buffering.Cutoff | src/buffering_strategy/buffering_strategies.py:130-133 | the cutoff lies `chunk_offset_seconds` before the end of the scratch audio: cutoff plus offset, times the byte rate, is the scratch length |
| Buffering.AppendAudio | src/server.py:59-60 | a binary frame is appended verbatim to the live buffer and to the received stream, and the ledger stays consistent |
| Buffering.DropLive | src/buffering_strategy/buffering_strategies.py:88-93 | an overload drop clears only the live buffer; scratch buffer, flag and pass are untouched |
| Buffering.Handoff | src/buffering_strategy/buffering_strategies.py:95-101 | the handoff moves the live buffer, in order, onto the end of the scratch buffer, raises the flag and schedules one pass, keeping the ledger consistent |
| Buffering.ProcessAudio | src/buffering_strategy/buffering_strategies.py:62-101 | at or below the strict threshold nothing changes; overload with `error_if_not_realtime` exits before touching anything; overload otherwise drops the live buffer only; a crossing with the flag clear hands off and schedules exactly one pass; ingest never sends or publishes |
| Buffering.Silence | src/buffering_strategy/buffering_strategies.py:123-128 | an empty VAD result clears both buffers, clears the flag, ends the pass and sends nothing |
| Buffering.OnVadDone | src/buffering_strategy/buffering_strategies.py:118-134 | empty result: silence; last segment ending at or after the cutoff: scratch kept intact, counter unchanged, nothing sent, flag cleared; ending before it: go on to acquire an engine; zero byte rate (the division raises): the corrected early end, flag cleared |
| Buffering.OnVadDoneAsWritten | src/buffering_strategy/buffering_strategies.py:118-134 | as the code behaves: the same as `OnVadDone` except that the division by a zero byte rate ends the pass with the flag left raised |
| Buffering.OnVadRaised | src/buffering_strategy/buffering_strategies.py:118 | the corrected handling of a VAD exception: the pass ends, session, ledger and outputs are untouched, and the flag is cleared |
| Buffering.OnVadRaisedAsWritten | src/buffering_strategy/buffering_strategies.py:118 | as the code behaves: a VAD exception ends the pass with session, ledger, outputs and flag all left as they were |
| Buffering.OnEngineFree | src/buffering_strategy/buffering_strategies.py:138 | the pass takes the front handle of the pool and holds it while transcribing |
| Buffering.Metrics | src/buffering_strategy/buffering_strategies.py:163-185 | processing time and length are always published for a sent transcript; speed and efficiency only when the audio duration is positive, with the values text length / duration and time / duration |
| Buffering.Finalize | src/buffering_strategy/buffering_strategies.py:144-190 | a non-empty text is sent with the audio duration computed before clearing and its metrics published; an empty text sends nothing; either way the scratch buffer is cleared, the counter goes up by exactly one and the flag is cleared |
| Buffering.OnAsrDone | src/buffering_strategy/buffering_strategies.py:138-190 | the engine is released whatever the outcome; a transcript finalizes; an exception leaves scratch and counter untouched and ends the pass |
| Buffering.OnAsrDoneAsWritten | src/buffering_strategy/buffering_strategies.py:138-190 | as the code behaves: the same as `OnAsrDone` except that an exception leaves the flag raised |
| Buffering.AbandonAsWritten | src/buffering_strategy/buffering_strategies.py:139-142 | an exception inside the pass ends it without clearing the flag; session, ledger and outputs are unchanged |
| Buffering.Abandon | src/buffering_strategy/buffering_strategies.py:139-142 | the corrected early end of a pass: as above but with the flag cleared |
| Buffering.BuffersDisjoint | src/buffering_strategy/buffering_strategies.py:95-96 | under the ledger invariant every scratch byte comes from an earlier stream offset than every live byte (so no offset is in both buffers), and each buffered byte is the received byte at its offset |
| Buffering.InitialInv | src/buffering_strategy/buffering_strategies.py:60 | a new client beside a freshly built pool satisfies the corrected invariant, and so the as-written one too |
| Buffering.StepPreservesInv | src/buffering_strategy/buffering_strategies.py:62-190 | for the corrected machine, every event preserves the invariant: flag raised exactly while a pass runs, a transcribing pass holds a checked-out engine, pool invariant, ledger consistency |
| Buffering.RunPreservesInv | src/buffering_strategy/buffering_strategies.py:62-190 | for the corrected machine, the invariant holds after any sequence of ingest and pass events |
| Buffering.Step | src/buffering_strategy/buffering_strategies.py:62-190 | ingest is always enabled and exits only under `error_if_not_realtime`; each pass event is enabled exactly in the stage that awaits it; the settings never change; only a binary frame adds to the stream; ingest leaves the pool alone |
| Buffering.Run | src/buffering_strategy/buffering_strategies.py:62-190 | a run never ends disabled, ends in an exit only under `error_if_not_realtime`, and keeps the settings |
| Buffering.StepAsWritten | src/buffering_strategy/buffering_strategies.py:62-190 | the event step as the code behaves: enabled and exiting exactly when `Step` is, with the same pool and the same machine except the flag, which where it differs stays raised with no pass running |
| Buffering.RunAsWritten | src/buffering_strategy/buffering_strategies.py:62-190 | a run as the code behaves never ends disabled, ends in an exit only under `error_if_not_realtime`, and keeps the settings |
| Buffering.StepPreservesInvAsWritten | src/buffering_strategy/buffering_strategies.py:62-190 | as written, every event preserves the weaker invariant: flag raised while a pass runs, a transcribing pass holds a checked-out engine, pool invariant, ledger consistency |
| Buffering.RunPreservesInvAsWritten | src/buffering_strategy/buffering_strategies.py:62-190 | as written, the weaker invariant holds after any sequence of ingest and pass events, so at most one pass is ever in flight |
| BufferingProperties.ScratchFrozenWhileInFlight | src/buffering_strategy/buffering_strategies.py:80-93 | while a pass is in flight, ingest never changes the scratch buffer, the flag or the pass, so no second pass is started |
| BufferingProperties.CutoffExample | src/buffering_strategy/buffering_strategies.py:130-134 | a 10 s window with offset 1 has cutoff 9: speech ending at 9.5 s keeps the window, speech ending at 8 s is finalized |
| BufferingProperties.RatioMetricsIffAudio | src/buffering_strategy/buffering_strategies.py:174-185 | for a sent transcript, the speed metric is published exactly when the finalized audio is non-empty, and four metrics rather than two |
| BufferingProperties.TranscriptionReturnsEngine | src/buffering_strategy/buffering_strategies.py:138-142 | acquire followed by either transcription outcome returns the engine: same available handles, same checked-out set, pool invariant kept |
| BufferingProperties.RunOnlyAppendsTranscripts | src/buffering_strategy/buffering_strategies.py:144-155 | over any run, earlier transcripts stay a prefix of what is sent and the received stream only grows |
| BufferingProperties.StepExtends | src/buffering_strategy/buffering_strategies.py:144-155 | a single event only appends to what is sent and received |
| BufferingProperties.AsrFailureWedgesSessionAsWritten | src/buffering_strategy/buffering_strategies.py:138-190 | as written, after `transcribe` raises the flag stays raised with no pass, and no later audio ever reaches the scratch buffer, starts a pass or is sent |
| BufferingProperties.WedgedStaysWedged | src/buffering_strategy/buffering_strategies.py:80-93 | a raised flag with no pass running stays so under any sequence of binary frames, leaving the scratch buffer and sent transcripts unchanged |
| BufferingProperties.AsrFailureRecovers | src/buffering_strategy/buffering_strategies.py:138-190 | with the corrected flag reset, after `transcribe` raises the invariant holds, the audio is kept, and the next threshold crossing schedules a new pass |
| BufferingProperties.CorrectedInvFailsAsWritten | src/buffering_strategy/buffering_strategies.py:138-190 | as written, a `transcribe` exception leads to a state that keeps the weaker invariant but breaks the corrected one |
| BufferingProperties.VadFailureWedgesSessionAsWritten | src/buffering_strategy/buffering_strategies.py:118-133 | as written, after `detect_activity` raises, or the cutoff divides by a zero byte rate, the flag stays raised with no pass, and no later audio reaches the scratch buffer, starts a pass or is sent |
| BufferingProperties.VadFailureRecovers | src/buffering_strategy/buffering_strategies.py:118-133 | with the corrected flag reset, after either VAD-stage exception the invariant holds, the audio is kept, and the next threshold crossing schedules a new pass |
| Server.ExtractApiKey | src/server.py:84-87 | the key is the first `AWAAZ_API_KEY` value when that list is non-empty, otherwise there is none |
| Server.Decide | src/server.py:89-97 | a missing or empty key closes with `(4001, "Missing API Key")`, a present key the validator rejects with `(4001, "Invalid API Key")`, and only a non-empty accepted key is admitted |
| Server.AdmitsExactlyConfiguredKey | src/server.py:90-97 | with the deployed key list a connection is admitted exactly when its first key equals a non-empty `TARA_API_KEY`; an unset one admits nobody |
| Server.NewClient | src/server.py:99-100 | the new client has an empty session of the server's audio format, no pass, a clear flag and nothing sent |
| Server.Register | src/server.py:99-101 | admission inserts exactly one new entry under the fresh id and changes no other entry |
| Server.Unregister | src/server.py:109-110 | the `finally` removes exactly the client's entry and changes no other entry |
| Server.HandleMessage | src/server.py:59-73 | binary: append then threshold check; `config` object: update the configuration and skip the check; other object or other frame type: check only; invalid JSON, non-object JSON or `config` without `data`: raise |
| Server.ReceiveLoop | src/server.py:55-73 | frames are handled in order until one raises or the client stops (then all were taken); every handled binary frame is appended verbatim, in order, to the stream; the loop sends nothing; a stream-consistent ledger stays consistent, so the buffers stay disjoint and in stream order; pass events are not interleaved, so the final client state is not the one the server reaches (see "## Left out") |
| Server.PayloadsUpToIsPrefix | src/server.py:56-60 | the bytes the loop appends for its first `k` frames are exactly the concatenated payloads of the binary frames in that prefix, in arrival order |
| Server.HandleWebsocket | src/server.py:75-110 | a rejected connection gets the decided close frame and leaves the registry unchanged; an admitted one runs the loop on a new client; in every case the server afterwards equals the server before |
| Server.NoKeyIsMissing | src/server.py:84-92 | no key parameter closes with `4001 Missing API Key` and registers nobody |
| Server.UnknownKeyIsInvalid | src/server.py:94-97 | a non-empty key outside the list closes with `4001 Invalid API Key` and registers nobody |
| Server.AdmittedConnectionLifecycle | src/server.py:99-110 | during an admitted connection the registry has exactly one extra entry under the fresh id; afterwards it is exactly as before; the client's stream is the payloads of the binary frames among those the loop took, in order (equal to the payloads of that prefix by `Server.PayloadsUpToIsPrefix`) |

## Findings

| source | as written | input that shows it | evidently intended | confidence | as-written member | corrected member |
|---|---|---|---|---|---|---|
| src/buffering_strategy/buffering_strategies.py:138-190 | an exception from `transcribe` propagates out of the pass after the engine is released, skipping `processing_flag = False` on line 190 | a session whose one finalize pass has `transcribe` raise; afterwards every chunk that crosses the threshold is dropped (or exits the process) and the session never transcribes again | the flag is cleared whenever the pass ends, so that a failed segment is lost (or retried) without wedging the session | medium, not executed | BufferingProperties.AsrFailureWedgesSessionAsWritten | BufferingProperties.AsrFailureRecovers |
| src/buffering_strategy/buffering_strategies.py:118-133 | an exception from `detect_activity` (line 118), or the `ZeroDivisionError` of the cutoff for a zero byte rate (lines 130-133), propagates out of the pass and skips line 190 in the same way | a session whose one finalize pass has `detect_activity` raise; afterwards every chunk that crosses the threshold is dropped (or exits the process) | the flag is cleared whenever the pass ends | medium, not executed | BufferingProperties.VadFailureWedgesSessionAsWritten | BufferingProperties.VadFailureRecovers |

`Buffering.Step` and `Buffering.Run` use the corrected `Buffering.Abandon`
for every exception inside a pass. `Buffering.StepAsWritten` and
`Buffering.RunAsWritten` use `Buffering.AbandonAsWritten`.

## Left out

- WebSocket transport, TLS and `websockets.serve` (src/server.py:112-142): I/O plumbing.
- The asyncio event loop: `create_task` becomes the `AwaitingVad` stage, a blocked `acquire` is a disabled `EngineFree` event; concurrent admissions and several sessions sharing one pool are not modelled (one session beside the pool).
- Sharing the `_instance` field of the pool between concurrent context-manager users: only sequential use is modelled.
- GPU memory introspection via pynvml: an input that is `None` on failure. Engine construction through the ASR factory: handles are numbers.
- The pyannote VAD engine and its temporary file: its result is an input sequence of segments.
- CloudWatch publishing, the GPU metric and the periodic metrics loop: the model records the metric names and values published.
- `time.perf_counter`: elapsed time is an input. The 4-decimal formatting of `processing_time`, and IEEE float rounding in general (including the float `0.8` in pool sizing): all quantities are exact reals.
- Argument parsing (src/main.py), logging and environment reading: `error_if_not_realtime` and the chunk settings are taken as already parsed values.
- Fields returned by the ASR engine besides `text`, and `json.dumps` of the result: the sent result is a record.
- A failing `websocket.send` inside the pass, and a pass finishing after its client was removed from the registry.
- `update_config` merge semantics: src/client.py is not part of this model, so an update is recorded in arrival order rather than merged.
- uuid freshness: the new client id is a parameter required not to be in the registry.
- Pass events during the receive loop: `Server.ReceiveLoop` does not interleave them with the frames, so after the first handoff the pass stays at `AwaitingVad` and every later crossing is dropped. The client state at the end of the loop (and in `Server.HandleWebsocket`) is therefore not the one the server reaches; the interleaving is modelled by `Buffering.Run` and `Buffering.RunAsWritten`.
