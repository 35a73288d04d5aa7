/** The `SilenceAtEndOfChunk` buffering strategy
    (src/buffering_strategy/buffering_strategies.py) as an event-driven state
    machine. The synchronous ingest step (`process_audio`) decides, on every
    call, whether the live buffer is handed to a finalize pass; the finalize
    pass (`process_audio_async`) is split into the events that resume it: the
    VAD result arriving, an engine becoming free, and the transcription
    outcome arriving. Ingest steps may interleave between those events.

    Besides the source's own state, a `Ledger` records where in the received
    stream each buffered byte came from; it is instrumentation that lets the
    invariant say that the two buffers never share a byte and keep stream
    order. */
module Buffering {
  import opened Base
  import opened Client
  import ModelPool

  /** The strategy object: its three settings and `processing_flag`. */
  datatype Strategy = Strategy(
    chunkLengthSeconds: real,
    chunkOffsetSeconds: real,
    errorIfNotRealtime: bool,
    processingFlag: bool)

  /** One speech segment reported by the VAD engine, in seconds. */
  datatype Segment = Segment(start: real, end: real, confidence: real)

  /** What the engine's `transcribe` call produced. */
  datatype AsrOutcome = Transcribed(text: string) | AsrRaised

  /** The result frame sent to the client: the recognised text, the elapsed
      processing time in seconds, and the duration of the transcribed audio. */
  datatype Transcript = Transcript(text: string, processingTime: real, audioDuration: real)

  datatype MetricName =
    | ChunkProcessingTime
    | TranscriptionLength
    | TranscriptionSpeed
    | ProcessingEfficiency

  /** One sample handed to the metric publisher. */
  datatype Metric = Metric(name: MetricName, value: real)

  /** Where the scheduled finalize task is suspended, if one exists. */
  datatype Pass =
    | NoPass
    | AwaitingVad                              // inside `detect_activity`
    | AwaitingEngine                           // inside `acquire`
    | Transcribing(engine: ModelPool.Handle)   // inside `transcribe`, holding an engine

  /** The whole received stream, and the stream offset of every byte of the
      live buffer and of the scratch buffer. */
  datatype Ledger = Ledger(received: seq<byte>, bufferPos: seq<nat>, scratchPos: seq<nat>)

  /** One client as the strategy sees it, with what it has sent and
      published so far. */
  datatype Machine = Machine(
    session: Session,
    strategy: Strategy,
    pass: Pass,
    ledger: Ledger,
    sent: seq<Transcript>,
    published: seq<Metric>)

  /** A machine together with the engine pool it shares. */
  datatype State = State(machine: Machine, pool: ModelPool.Pool)

  /** The outcome of an ingest step: carry on, or exit the process because a
      chunk arrived while the previous one was still being processed. */
  datatype Ingest = Continue(next: Machine) | Fatal(at: Machine)

  function NewStrategy(chunkLengthSeconds: real, chunkOffsetSeconds: real, errorIfNotRealtime: bool): (s: Strategy)
    ensures !s.processingFlag
    ensures s.chunkLengthSeconds == chunkLengthSeconds && s.chunkOffsetSeconds == chunkOffsetSeconds
    ensures s.errorIfNotRealtime == errorIfNotRealtime
  {
    Strategy(chunkLengthSeconds, chunkOffsetSeconds, errorIfNotRealtime, false)
  }

  function NewMachine(session: Session, strategy: Strategy): (m: Machine)
    requires session.buffer == [] && session.scratch == []
    requires !strategy.processingFlag
    ensures LedgerOk(m) && m.pass == NoPass && m.sent == [] && m.published == []
  {
    Machine(session, strategy, NoPass, Ledger([], [], []), [], [])
  }

  // ---------------------------------------------------------------------
  // Quantities
  // ---------------------------------------------------------------------

  /** Bytes of audio per second of the session's format. */
  function BytesPerSecond(s: Session): int {
    s.samplingRate * s.samplesWidth
  }

  /** The ingest threshold, in bytes: one chunk's worth of audio. */
  function ChunkLengthInBytes(m: Machine): (n: real)
    ensures n == m.strategy.chunkLengthSeconds * (BytesPerSecond(m.session) as real)
  {
    m.strategy.chunkLengthSeconds * (m.session.samplingRate as real) * (m.session.samplesWidth as real)
  }

  /** The live buffer holds more than one chunk (the comparison is strict):
      for a positive byte rate, more than `chunk_length_seconds` of audio. */
  function OverThreshold(m: Machine): (over: bool)
    ensures BytesPerSecond(m.session) > 0 ==>
      (over <==> (|m.session.buffer| as real) / (BytesPerSecond(m.session) as real) > m.strategy.chunkLengthSeconds)
  {
    var over := |m.session.buffer| as real > ChunkLengthInBytes(m);
    assert BytesPerSecond(m.session) > 0 ==>
      (over <==> (|m.session.buffer| as real) / (BytesPerSecond(m.session) as real) > m.strategy.chunkLengthSeconds) by {
      if BytesPerSecond(m.session) > 0 {
        SecondsScale(|m.session.buffer| as real, BytesPerSecond(m.session) as real, m.strategy.chunkLengthSeconds);
      }
    }
    over
  }

  /** Comparing a byte count with seconds times a positive byte rate is
      comparing the seconds it lasts. */
  lemma SecondsScale(bytes: real, rate: real, seconds: real)
    requires rate > 0.0
    ensures bytes > seconds * rate <==> bytes / rate > seconds
  {
    assert bytes == (bytes / rate) * rate;
  }

  /** Seconds of audio in the scratch buffer. */
  function AudioDuration(s: Session): (d: real)
    requires BytesPerSecond(s) != 0
    ensures BytesPerSecond(s) > 0 ==> (d > 0.0 <==> |s.scratch| > 0)
    ensures d * (BytesPerSecond(s) as real) == |s.scratch| as real
  {
    (|s.scratch| as real) / (BytesPerSecond(s) as real)
  }

  /** The point in the scratch window before which detected speech must end
      for the window to be finalized. */
  function Cutoff(m: Machine): (t: real)
    requires BytesPerSecond(m.session) != 0
    // `chunk_offset_seconds` before the end of the scratch audio.
    ensures (t + m.strategy.chunkOffsetSeconds) * (BytesPerSecond(m.session) as real) == |m.session.scratch| as real
  {
    AudioDuration(m.session) - m.strategy.chunkOffsetSeconds
  }

  // ---------------------------------------------------------------------
  // The ledger invariant
  // ---------------------------------------------------------------------

  /** The live buffer is exactly the tail of the received stream, and its
      recorded offsets are that tail's offsets; every scratch byte is the
      received byte at its recorded offset, and those offsets increase
      strictly and all lie before the live buffer. So no stream byte is in
      both buffers, and the scratch buffer is an in-order selection of the
      stream that precedes the live buffer. */
  predicate LedgerOk(m: Machine) {
    var l := m.ledger;
    var b := m.session.buffer;
    && |b| <= |l.received|
    && l.received[|l.received| - |b|..] == b
    && |l.bufferPos| == |b|
    && (forall k :: 0 <= k < |l.bufferPos| ==> l.bufferPos[k] == |l.received| - |b| + k)
    && |l.scratchPos| == |m.session.scratch|
    && (forall i :: 0 <= i < |l.scratchPos| ==>
          l.scratchPos[i] < |l.received| - |b| && l.received[l.scratchPos[i]] == m.session.scratch[i])
    && (forall i, j :: 0 <= i < j < |l.scratchPos| ==> l.scratchPos[i] < l.scratchPos[j])
  }

  /** Under the ledger invariant no stream offset is claimed by both buffers,
      and each buffered byte is the received byte at its offset. */
  lemma BuffersDisjoint(m: Machine, i: nat, k: nat)
    requires LedgerOk(m)
    requires i < |m.session.scratch| && k < |m.session.buffer|
    ensures m.ledger.scratchPos[i] < m.ledger.bufferPos[k]
    ensures m.ledger.received[m.ledger.scratchPos[i]] == m.session.scratch[i]
    ensures m.ledger.received[m.ledger.bufferPos[k]] == m.session.buffer[k]
  {
    var l := m.ledger;
    assert l.received[|l.received| - |m.session.buffer|..][k] == m.session.buffer[k];
  }

  // ---------------------------------------------------------------------
  // Ingest
  // ---------------------------------------------------------------------

  /** The server appends an inbound binary frame to the live buffer. */
  function AppendAudio(m: Machine, data: seq<byte>): (r: Machine)
    ensures r.session == AppendAudioData(m.session, data)
    ensures r.ledger.received == m.ledger.received + data
    ensures r.strategy == m.strategy && r.pass == m.pass
    ensures r.sent == m.sent && r.published == m.published
    ensures LedgerOk(m) ==> LedgerOk(r)
  {
    var l := m.ledger;
    var r := m.(session := AppendAudioData(m.session, data),
                ledger := l.(received := l.received + data,
                             bufferPos := l.bufferPos + Span(|l.received|, |l.received| + |data|)));
    assert LedgerOk(m) ==> LedgerOk(r) by {
      if LedgerOk(m) {
        var from := |l.received| - |m.session.buffer|;
        assert (l.received + data)[from..] == l.received[from..] + data;
        assert forall i :: 0 <= i < |l.scratchPos| ==>
          (l.received + data)[l.scratchPos[i]] == l.received[l.scratchPos[i]];
      }
    }
    r
  }

  /** Overload under the drop policy: discard the live buffer. */
  function DropLive(m: Machine): (r: Machine)
    ensures r.session == m.session.(buffer := [])
    ensures r.strategy == m.strategy && r.pass == m.pass
    ensures r.ledger.received == m.ledger.received
    ensures r.sent == m.sent && r.published == m.published
    ensures LedgerOk(m) ==> LedgerOk(r)
  {
    m.(session := m.session.(buffer := []),
       ledger := m.ledger.(bufferPos := []))
  }

  /** Move the whole live buffer onto the end of the scratch buffer, raise
      the flag and schedule one finalize pass. */
  function Handoff(m: Machine): (r: Machine)
    ensures r.session == m.session.(scratch := m.session.scratch + m.session.buffer, buffer := [])
    ensures r.strategy == m.strategy.(processingFlag := true)
    ensures r.pass == AwaitingVad
    ensures r.ledger.received == m.ledger.received
    ensures r.sent == m.sent && r.published == m.published
    ensures LedgerOk(m) ==> LedgerOk(r)
  {
    var l := m.ledger;
    var r := m.(session := m.session.(scratch := m.session.scratch + m.session.buffer, buffer := []),
                strategy := m.strategy.(processingFlag := true),
                pass := AwaitingVad,
                ledger := l.(scratchPos := l.scratchPos + l.bufferPos, bufferPos := []));
    assert LedgerOk(m) ==> LedgerOk(r) by {
      if LedgerOk(m) {
        HandoffLedger(m, r);
      }
    }
    r
  }

  lemma HandoffLedger(m: Machine, r: Machine)
    requires LedgerOk(m)
    requires r.session == m.session.(scratch := m.session.scratch + m.session.buffer, buffer := [])
    requires r.ledger == m.ledger.(scratchPos := m.ledger.scratchPos + m.ledger.bufferPos, bufferPos := [])
    ensures LedgerOk(r)
  {
    var l := m.ledger;
    var n := |l.scratchPos|;
    var pos := l.scratchPos + l.bufferPos;
    var scratch := m.session.scratch + m.session.buffer;
    var from := |l.received| - |m.session.buffer|;
    forall i | 0 <= i < |pos|
      ensures pos[i] < |l.received| && l.received[pos[i]] == scratch[i]
    {
      if i >= n {
        assert pos[i] == from + (i - n);
        assert l.received[from..][i - n] == m.session.buffer[i - n];
      }
    }
  }

  /** `process_audio`: the synchronous threshold check run after every
      handled frame. */
  function ProcessAudio(m: Machine): (r: Ingest)
    // At or below the threshold nothing changes.
    ensures !OverThreshold(m) ==> r == Continue(m)
    // Overload with `error_if_not_realtime`: exit, before touching anything.
    ensures OverThreshold(m) && m.strategy.processingFlag && m.strategy.errorIfNotRealtime
            ==> r == Fatal(m)
    // Overload under the drop policy: only the live buffer is discarded.
    ensures OverThreshold(m) && m.strategy.processingFlag && !m.strategy.errorIfNotRealtime
            ==> (r.Continue? && r.next.session == m.session.(buffer := [])
                 && r.next.strategy == m.strategy && r.next.pass == m.pass)
    // Handoff: the bytes move, in order, and exactly one pass is scheduled.
    ensures OverThreshold(m) && !m.strategy.processingFlag
            ==> (r.Continue? && r.next.session.scratch == m.session.scratch + m.session.buffer
                 && r.next.session.buffer == [] && r.next.strategy.processingFlag
                 && r.next.pass == AwaitingVad
                 && r.next.session.fileCounter == m.session.fileCounter)
    // An ingest step never sends, publishes or loses track of the stream.
    ensures r.Continue? ==> (r.next.sent == m.sent && r.next.published == m.published
                             && r.next.ledger.received == m.ledger.received
                             && r.next.session.samplingRate == m.session.samplingRate
                             && r.next.session.samplesWidth == m.session.samplesWidth)
    ensures r.Continue? && LedgerOk(m) ==> LedgerOk(r.next)
  {
    if !OverThreshold(m) then Continue(m)
    else if m.strategy.processingFlag then
      if m.strategy.errorIfNotRealtime then Fatal(m) else Continue(DropLive(m))
    else Continue(Handoff(m))
  }

  // ---------------------------------------------------------------------
  // The finalize pass
  // ---------------------------------------------------------------------

  /** The pass ends early because a call inside it raised. The flag is
      cleared so that the session can start a new pass later. */
  function Abandon(m: Machine): (r: Machine)
    ensures r.pass == NoPass && !r.strategy.processingFlag
    ensures r.session == m.session && r.ledger == m.ledger
    ensures r.sent == m.sent && r.published == m.published
  {
    m.(pass := NoPass, strategy := m.strategy.(processingFlag := false))
  }

  /** The pass ends early because a call inside it raised, as the source
      behaves: the exception skips the final `processing_flag = False`, so the
      flag stays raised although no pass is running any more. */
  function AbandonAsWritten(m: Machine): (r: Machine)
    ensures r.pass == NoPass && r.strategy == m.strategy
    ensures r.session == m.session && r.ledger == m.ledger
    ensures r.sent == m.sent && r.published == m.published
  {
    m.(pass := NoPass)
  }

  /** VAD found no speech: both buffers are cleared, including audio that
      arrived while VAD ran. */
  function Silence(m: Machine): (r: Machine)
    ensures r.session == m.session.(scratch := [], buffer := [])
    ensures r.pass == NoPass && r.strategy == m.strategy.(processingFlag := false)
    ensures r.sent == m.sent && r.published == m.published
    ensures r.ledger.received == m.ledger.received
    ensures LedgerOk(r)
  {
    m.(session := m.session.(scratch := [], buffer := []),
       strategy := m.strategy.(processingFlag := false),
       pass := NoPass,
       ledger := m.ledger.(bufferPos := [], scratchPos := []))
  }

  /** The VAD result arrives. */
  function OnVadDone(m: Machine, segments: seq<Segment>): (r: Machine)
    requires m.pass == AwaitingVad
    // Silence: discard everything, emit nothing.
    ensures |segments| == 0 ==> r == Silence(m)
    // Speech that runs up to the end of the window: keep the scratch buffer.
    ensures |segments| > 0 && BytesPerSecond(m.session) != 0
            && segments[|segments| - 1].end >= Cutoff(m)
            ==> r == m.(pass := NoPass, strategy := m.strategy.(processingFlag := false))
    // Speech that ended early enough: go on to transcribe.
    ensures |segments| > 0 && BytesPerSecond(m.session) != 0
            && segments[|segments| - 1].end < Cutoff(m)
            ==> r == m.(pass := AwaitingEngine)
    // A zero bytes-per-second format makes the cutoff division raise.
    ensures |segments| > 0 && BytesPerSecond(m.session) == 0 ==> r == Abandon(m)
  {
    if |segments| == 0 then Silence(m)
    else if BytesPerSecond(m.session) == 0 then Abandon(m)
    else if segments[|segments| - 1].end < Cutoff(m) then m.(pass := AwaitingEngine)
    else m.(pass := NoPass, strategy := m.strategy.(processingFlag := false))
  }

  /** The VAD result as the source handles it: identical to `OnVadDone`
      except that the division by a zero byte rate leaves the flag raised. */
  function OnVadDoneAsWritten(m: Machine, segments: seq<Segment>): (r: Machine)
    requires m.pass == AwaitingVad
    ensures !(|segments| > 0 && BytesPerSecond(m.session) == 0) ==> r == OnVadDone(m, segments)
    ensures |segments| > 0 && BytesPerSecond(m.session) == 0 ==> r == AbandonAsWritten(m)
  {
    if |segments| > 0 && BytesPerSecond(m.session) == 0 then AbandonAsWritten(m)
    else OnVadDone(m, segments)
  }

  /** `detect_activity` raised: the pass ends, the session and the stream
      are untouched, nothing is sent, and the flag is cleared. */
  function OnVadRaised(m: Machine): (r: Machine)
    requires m.pass == AwaitingVad
    ensures r.pass == NoPass && r.strategy == m.strategy.(processingFlag := false)
    ensures r.session == m.session && r.ledger == m.ledger
    ensures r.sent == m.sent && r.published == m.published
  {
    Abandon(m)
  }

  /** `detect_activity` raised, as the source handles it: the pass ends with
      everything, the flag included, left as it was. */
  function OnVadRaisedAsWritten(m: Machine): (r: Machine)
    requires m.pass == AwaitingVad
    ensures r.pass == NoPass && r.strategy == m.strategy
    ensures r.session == m.session && r.ledger == m.ledger
    ensures r.sent == m.sent && r.published == m.published
  {
    AbandonAsWritten(m)
  }

  /** An engine is free: the pass takes it from the front of the pool. */
  function OnEngineFree(m: Machine, pool: ModelPool.Pool): (r: State)
    requires m.pass == AwaitingEngine && |pool.queue| > 0
    ensures ModelPool.Acquire(pool).Acquired?
    ensures r.machine == m.(pass := Transcribing(pool.queue[0]))
    ensures r.pool == ModelPool.Acquire(pool).pool
  {
    match ModelPool.Acquire(pool)
    case Acquired(h, pool') => State(m.(pass := Transcribing(h)), pool')
  }

  /** The metrics published for a non-empty transcript; the two ratios are
      skipped when the audio has no duration. */
  function Metrics(text: string, elapsed: real, duration: real): (ms: seq<Metric>)
    ensures |ms| == (if duration > 0.0 then 4 else 2)
    ensures ms[0] == Metric(ChunkProcessingTime, elapsed)
    ensures ms[1] == Metric(TranscriptionLength, |text| as real)
    ensures duration > 0.0 ==> (ms[2] == Metric(TranscriptionSpeed, (|text| as real) / duration)
                                && ms[3] == Metric(ProcessingEfficiency, elapsed / duration))
  {
    [Metric(ChunkProcessingTime, elapsed), Metric(TranscriptionLength, |text| as real)]
    + (if duration > 0.0
       then [Metric(TranscriptionSpeed, (|text| as real) / duration),
             Metric(ProcessingEfficiency, elapsed / duration)]
       else [])
  }

  /** The successful end of a pass that transcribed `text`: emit it when it is
      not empty, then clear the scratch buffer and count the segment. */
  function Finalize(m: Machine, text: string, elapsed: real): (r: Machine)
    requires BytesPerSecond(m.session) != 0
    ensures r.session == IncrementFileCounter(m.session.(scratch := []))
    ensures r.pass == NoPass && r.strategy == m.strategy.(processingFlag := false)
    ensures text == "" ==> r.sent == m.sent && r.published == m.published
    ensures text != "" ==> r.sent == m.sent + [Transcript(text, elapsed, AudioDuration(m.session))]
    ensures text != "" ==> r.published == m.published + Metrics(text, elapsed, AudioDuration(m.session))
    ensures LedgerOk(m) ==> LedgerOk(r)
  {
    var duration := AudioDuration(m.session);
    m.(session := IncrementFileCounter(m.session.(scratch := [])),
       strategy := m.strategy.(processingFlag := false),
       pass := NoPass,
       ledger := m.ledger.(scratchPos := []),
       sent := if text != "" then m.sent + [Transcript(text, elapsed, duration)] else m.sent,
       published := if text != "" then m.published + Metrics(text, elapsed, duration) else m.published)
  }

  /** The transcription outcome arrives. The engine is released first, in a
      `finally`, whatever the outcome; a failed release raises in its place. */
  function OnAsrDone(m: Machine, pool: ModelPool.Pool, outcome: AsrOutcome, elapsed: real): (r: State)
    requires m.pass.Transcribing? && BytesPerSecond(m.session) != 0
    ensures ModelPool.Release(pool, m.pass.engine).Success?
            ==> r.pool == ModelPool.Release(pool, m.pass.engine).value
    ensures ModelPool.Release(pool, m.pass.engine).Failure? ==> r == State(Abandon(m), pool)
    ensures ModelPool.Release(pool, m.pass.engine).Success? && outcome.AsrRaised?
            ==> r.machine == Abandon(m)
    ensures ModelPool.Release(pool, m.pass.engine).Success? && outcome.Transcribed?
            ==> r.machine == Finalize(m, outcome.text, elapsed)
  {
    match ModelPool.Release(pool, m.pass.engine)
    case Failure(_) => State(Abandon(m), pool)
    case Success(pool') =>
      match outcome
      case AsrRaised => State(Abandon(m), pool')
      case Transcribed(text) => State(Finalize(m, text, elapsed), pool')
  }

  /** The transcription outcome as the source handles it: identical to
      `OnAsrDone` except that a raised exception leaves the flag raised. */
  function OnAsrDoneAsWritten(m: Machine, pool: ModelPool.Pool, outcome: AsrOutcome, elapsed: real): (r: State)
    requires m.pass.Transcribing? && BytesPerSecond(m.session) != 0
    ensures ModelPool.Release(pool, m.pass.engine).Success? && outcome.AsrRaised?
            ==> r == State(AbandonAsWritten(m), ModelPool.Release(pool, m.pass.engine).value)
    ensures ModelPool.Release(pool, m.pass.engine).Failure? ==> r == State(AbandonAsWritten(m), pool)
    ensures ModelPool.Release(pool, m.pass.engine).Success? && outcome.Transcribed?
            ==> r == OnAsrDone(m, pool, outcome, elapsed)
  {
    match ModelPool.Release(pool, m.pass.engine)
    case Failure(_) => State(AbandonAsWritten(m), pool)
    case Success(pool') =>
      match outcome
      case AsrRaised => State(AbandonAsWritten(m), pool')
      case Transcribed(text) => State(Finalize(m, text, elapsed), pool')
  }

  // ---------------------------------------------------------------------
  // Events
  // ---------------------------------------------------------------------

  datatype Event =
    | Audio(data: seq<byte>)                      // binary frame, then `process_audio`
    | Poke                                        // other frame, `process_audio` only
    | VadDone(segments: seq<Segment>)
    | VadRaised
    | EngineFree
    | AsrDone(outcome: AsrOutcome, elapsed: real)

  datatype StepResult = Next(state: State) | Disabled | Exited

  function FromIngest(r: Ingest, pool: ModelPool.Pool): StepResult {
    match r
    case Continue(m') => Next(State(m', pool))
    case Fatal(_) => Exited
  }

  /** The settings of a strategy, leaving out its flag. */
  function Settings(s: Strategy): Strategy {
    s.(processingFlag := false)
  }

  /** One event. Events that the current stage cannot receive are disabled;
      a pass blocked on an empty pool cannot take an engine. */
  function Step(st: State, e: Event): (r: StepResult)
    // Ingest is always enabled, and only ingest under `error_if_not_realtime` exits.
    ensures (e.Audio? || e.Poke?) ==> !r.Disabled?
    ensures r.Exited? ==> (e.Audio? || e.Poke?) && st.machine.strategy.errorIfNotRealtime
    // A pass event is enabled exactly in the stage that awaits it.
    ensures (e.VadDone? || e.VadRaised?) ==> (r.Disabled? <==> st.machine.pass != AwaitingVad)
    ensures e.EngineFree? ==> (r.Disabled? <==> !(st.machine.pass == AwaitingEngine && |st.pool.queue| > 0))
    ensures e.AsrDone? ==>
      (r.Disabled? <==> !(st.machine.pass.Transcribing? && BytesPerSecond(st.machine.session) != 0))
    // The settings never change, only a binary frame adds to the stream,
    // and ingest leaves the pool alone.
    ensures r.Next? ==> Settings(r.state.machine.strategy) == Settings(st.machine.strategy)
    ensures r.Next? && !e.Audio? ==> r.state.machine.ledger.received == st.machine.ledger.received
    ensures r.Next? && (e.Audio? || e.Poke?) ==> r.state.pool == st.pool
  {
    var m := st.machine;
    match e
    case Audio(data) => FromIngest(ProcessAudio(AppendAudio(m, data)), st.pool)
    case Poke => FromIngest(ProcessAudio(m), st.pool)
    case VadDone(segments) =>
      if m.pass == AwaitingVad then Next(State(OnVadDone(m, segments), st.pool)) else Disabled
    case VadRaised =>
      if m.pass == AwaitingVad then Next(State(OnVadRaised(m), st.pool)) else Disabled
    case EngineFree =>
      if m.pass == AwaitingEngine && |st.pool.queue| > 0 then Next(OnEngineFree(m, st.pool)) else Disabled
    case AsrDone(outcome, elapsed) =>
      if m.pass.Transcribing? && BytesPerSecond(m.session) != 0
      then Next(OnAsrDone(m, st.pool, outcome, elapsed))
      else Disabled
  }

  /** A run of events; disabled events are skipped and an exit ends the run. */
  function Run(st: State, events: seq<Event>): (r: StepResult)
    ensures !r.Disabled?
    ensures r.Exited? ==> st.machine.strategy.errorIfNotRealtime
    ensures r.Next? ==> Settings(r.state.machine.strategy) == Settings(st.machine.strategy)
    decreases |events|
  {
    if |events| == 0 then Next(st)
    else
      match Step(st, events[0])
      case Next(st') => Run(st', events[1..])
      case Disabled => Run(st, events[1..])
      case Exited => Exited
  }

  /** One event as the source handles it: every exception inside the pass
      (`detect_activity` raising, the cutoff dividing by zero, `transcribe`
      raising) leaves the flag raised. It agrees with `Step` on everything
      but the flag, and where the flag differs it stays raised with no pass. */
  function StepAsWritten(st: State, e: Event): (r: StepResult)
    ensures r.Next? <==> Step(st, e).Next?
    ensures r.Exited? <==> Step(st, e).Exited?
    ensures r.Next? ==> r.state.pool == Step(st, e).state.pool
    ensures r.Next? ==> r.state.machine == Step(st, e).state.machine.(strategy := r.state.machine.strategy)
    ensures r.Next? && r.state != Step(st, e).state ==>
      && r.state.machine.strategy == Step(st, e).state.machine.strategy.(processingFlag := true)
      && r.state.machine.pass == NoPass
  {
    var m := st.machine;
    match e
    case VadDone(segments) =>
      if m.pass == AwaitingVad then Next(State(OnVadDoneAsWritten(m, segments), st.pool)) else Disabled
    case VadRaised =>
      if m.pass == AwaitingVad then Next(State(OnVadRaisedAsWritten(m), st.pool)) else Disabled
    case AsrDone(outcome, elapsed) =>
      if m.pass.Transcribing? && BytesPerSecond(m.session) != 0
      then Next(OnAsrDoneAsWritten(m, st.pool, outcome, elapsed))
      else Disabled
    case _ => Step(st, e)
  }

  /** A run of events handled as the source handles them. */
  function RunAsWritten(st: State, events: seq<Event>): (r: StepResult)
    ensures !r.Disabled?
    ensures r.Exited? ==> st.machine.strategy.errorIfNotRealtime
    ensures r.Next? ==> Settings(r.state.machine.strategy) == Settings(st.machine.strategy)
    decreases |events|
  {
    if |events| == 0 then Next(st)
    else
      match StepAsWritten(st, events[0])
      case Next(st') => RunAsWritten(st', events[1..])
      case Disabled => RunAsWritten(st, events[1..])
      case Exited => Exited
  }

  // ---------------------------------------------------------------------
  // Invariant
  // ---------------------------------------------------------------------

  /** What the source keeps as written: the flag is raised while a pass is
      running (so a second pass is never scheduled beside it); a transcribing
      pass holds a checked-out engine; a pass past its cutoff computation has
      a non-zero byte rate; the pool keeps its own invariant; the ledger is
      consistent. */
  predicate InvAsWritten(st: State) {
    var m := st.machine;
    && ModelPool.Valid(st.pool)
    && (!m.pass.NoPass? ==> m.strategy.processingFlag)
    && (m.pass.Transcribing? ==> m.pass.engine in st.pool.out)
    && ((m.pass.AwaitingEngine? || m.pass.Transcribing?) ==> BytesPerSecond(m.session) != 0)
    && LedgerOk(m)
  }

  /** With the corrected exception handling, moreover, the flag is raised
      only while a pass is running, so it is raised exactly then. */
  predicate Inv(st: State) {
    && InvAsWritten(st)
    && (st.machine.strategy.processingFlag ==> !st.machine.pass.NoPass?)
  }

  /** A new client next to a freshly built pool satisfies the invariant. */
  lemma InitialInv(session: Session, strategy: Strategy, poolSize: int)
    requires session.buffer == [] && session.scratch == []
    requires !strategy.processingFlag
    requires poolSize >= 1
    ensures Inv(State(NewMachine(session, strategy), ModelPool.NewPool(poolSize)))
  {
  }

  lemma StepPreservesInv(st: State, e: Event)
    requires Inv(st)
    ensures Step(st, e).Next? ==> Inv(Step(st, e).state)
  {
    var m := st.machine;
    match e
    case Audio(data) =>
      var a := AppendAudio(m, data);
      assert LedgerOk(a);
    case Poke =>
    case VadDone(segments) =>
    case VadRaised =>
    case EngineFree =>
      if m.pass == AwaitingEngine && |st.pool.queue| > 0 {
        ModelPool.AcquiredHandleIsExclusive(st.pool);
      }
    case AsrDone(outcome, elapsed) =>
      if m.pass.Transcribing? && BytesPerSecond(m.session) != 0 {
        assert ModelPool.Release(st.pool, m.pass.engine).Success?;
      }
  }

  /** The invariant holds after any run of events. */
  lemma {:induction false} RunPreservesInv(st: State, events: seq<Event>)
    requires Inv(st)
    ensures Run(st, events).Next? ==> Inv(Run(st, events).state)
    decreases |events|
  {
    if |events| > 0 {
      StepPreservesInv(st, events[0]);
      match Step(st, events[0])
      case Next(st') => RunPreservesInv(st', events[1..]);
      case Disabled => RunPreservesInv(st, events[1..]);
      case Exited =>
    }
  }

  lemma StepPreservesInvAsWritten(st: State, e: Event)
    requires InvAsWritten(st)
    ensures StepAsWritten(st, e).Next? ==> InvAsWritten(StepAsWritten(st, e).state)
  {
    var m := st.machine;
    match e
    case Audio(data) =>
      var a := AppendAudio(m, data);
      assert LedgerOk(a);
    case Poke =>
    case VadDone(segments) =>
    case VadRaised =>
    case EngineFree =>
      if m.pass == AwaitingEngine && |st.pool.queue| > 0 {
        ModelPool.AcquiredHandleIsExclusive(st.pool);
      }
    case AsrDone(outcome, elapsed) =>
      if m.pass.Transcribing? && BytesPerSecond(m.session) != 0 {
        assert ModelPool.Release(st.pool, m.pass.engine).Success?;
      }
  }

  /** As written, the weaker invariant holds after any run of events: at
      most one pass is ever in flight, although the flag may outlive it. */
  lemma {:induction false} RunPreservesInvAsWritten(st: State, events: seq<Event>)
    requires InvAsWritten(st)
    ensures RunAsWritten(st, events).Next? ==> InvAsWritten(RunAsWritten(st, events).state)
    decreases |events|
  {
    if |events| > 0 {
      StepPreservesInvAsWritten(st, events[0]);
      match StepAsWritten(st, events[0])
      case Next(st') => RunPreservesInvAsWritten(st', events[1..]);
      case Disabled => RunPreservesInvAsWritten(st, events[1..]);
      case Exited =>
    }
  }
}
