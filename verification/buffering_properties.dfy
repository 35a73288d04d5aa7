/** Properties of the buffering state machine that relate several steps:
    overload never touches an in-flight pass, the cutoff example, the engine
    is always handed back, transcripts are only ever appended, and what an
    exception inside a pass does to the session. */
module BufferingProperties {
  import opened Base
  import opened Client
  import opened Buffering
  import ModelPool

  /** While a pass is in flight, ingest never appends to the scratch buffer
      and never schedules a second pass: the process exits, or the chunk is
      dropped, or nothing happens. */
  lemma ScratchFrozenWhileInFlight(st: State, data: seq<byte>)
    requires Inv(st) && !st.machine.pass.NoPass?
    ensures ProcessAudio(AppendAudio(st.machine, data)).Continue? ==>
      var m' := ProcessAudio(AppendAudio(st.machine, data)).next;
      && m'.session.scratch == st.machine.session.scratch
      && m'.pass == st.machine.pass
      && m'.strategy == st.machine.strategy
  {
  }

  /** A ten-second window (8 kHz, two bytes per sample) with a one-second
      offset has its cutoff at nine seconds: speech ending at 9.5 s keeps the
      window for the next pass, speech ending at 8 s is finalized. */
  lemma CutoffExample(m: Machine)
    requires m.pass == AwaitingVad
    requires m.session.samplingRate == 8000 && m.session.samplesWidth == 2
    requires |m.session.scratch| == 160000
    requires m.strategy.chunkOffsetSeconds == 1.0
    ensures Cutoff(m) == 9.0
    ensures var r := OnVadDone(m, [Segment(0.5, 9.5, 1.0)]);
      r.session == m.session && r.pass == NoPass && !r.strategy.processingFlag && r.sent == m.sent
    ensures OnVadDone(m, [Segment(0.5, 8.0, 1.0)]).pass == AwaitingEngine
  {
    assert AudioDuration(m.session) == 10.0;
  }

  /** The speed and efficiency metrics are published exactly when the
      finalized audio is not empty (for a positive byte rate). */
  lemma RatioMetricsIffAudio(m: Machine, text: string, elapsed: real)
    requires BytesPerSecond(m.session) > 0 && text != ""
    ensures var r := Finalize(m, text, elapsed);
      |r.published| == |m.published| + (if |m.session.scratch| > 0 then 4 else 2)
    ensures var r := Finalize(m, text, elapsed);
      (exists k :: |m.published| <= k < |r.published| && r.published[k].name == TranscriptionSpeed)
      <==> |m.session.scratch| > 0
  {
    var r := Finalize(m, text, elapsed);
    var ms := Metrics(text, elapsed, AudioDuration(m.session));
    assert r.published == m.published + ms;
    assert forall k :: |m.published| <= k < |r.published| ==> r.published[k] == ms[k - |m.published|];
    if |m.session.scratch| > 0 {
      assert r.published[|m.published| + 2].name == TranscriptionSpeed;
    }
  }

  /** Acquiring an engine for a pass and then receiving the transcription
      outcome, whether a transcript or an exception, gives the engine back:
      the same handles are available (the taken one now at the back), the
      same are checked out, and the pool invariant holds. */
  lemma {:induction false} TranscriptionReturnsEngine(st: State, outcome: AsrOutcome, elapsed: real)
    requires Inv(st) && st.machine.pass == AwaitingEngine && |st.pool.queue| > 0
    ensures var s1 := OnEngineFree(st.machine, st.pool);
      var s2 := OnAsrDone(s1.machine, s1.pool, outcome, elapsed);
      && s2.pool.queue == st.pool.queue[1..] + [st.pool.queue[0]]
      && multiset(s2.pool.queue) == multiset(st.pool.queue)
      && s2.pool.out == st.pool.out
      && ModelPool.Valid(s2.pool)
      && s2.machine.pass == NoPass && !s2.machine.strategy.processingFlag
  {
    var h := st.pool.queue[0];
    ModelPool.AcquiredHandleIsExclusive(st.pool);
    var s1 := OnEngineFree(st.machine, st.pool);
    assert s1.machine.pass == Transcribing(h);
    assert ModelPool.Valid(s1.pool) && h in s1.pool.out;
    var rel := ModelPool.Release(s1.pool, h);
    assert rel.Success? && ModelPool.Valid(rel.value);
    assert rel.value.out == (st.pool.out + {h}) - {h} == st.pool.out;
    assert st.pool.queue == [h] + st.pool.queue[1..];
  }

  /** Transcripts are only ever appended: a run extends what was sent. */
  lemma {:induction false} RunOnlyAppendsTranscripts(st: State, events: seq<Event>)
    ensures Run(st, events).Next? ==> st.machine.sent <= Run(st, events).state.machine.sent
    ensures Run(st, events).Next? ==>
      st.machine.ledger.received <= Run(st, events).state.machine.ledger.received
    decreases |events|
  {
    if |events| > 0 {
      var m := st.machine;
      match Step(st, events[0])
      case Next(st') =>
        StepExtends(st, events[0]);
        RunOnlyAppendsTranscripts(st', events[1..]);
      case Disabled => RunOnlyAppendsTranscripts(st, events[1..]);
      case Exited =>
    }
  }

  lemma StepExtends(st: State, e: Event)
    requires Step(st, e).Next?
    ensures st.machine.sent <= Step(st, e).state.machine.sent
    ensures st.machine.ledger.received <= Step(st, e).state.machine.ledger.received
  {
  }

  /** Ingest of a sequence of binary frames and nothing else. */
  function IngestAll(m: Machine, chunks: seq<seq<byte>>): Ingest
    decreases |chunks|
  {
    if |chunks| == 0 then Continue(m)
    else
      match ProcessAudio(AppendAudio(m, chunks[0]))
      case Fatal(x) => Fatal(x)
      case Continue(m') => IngestAll(m', chunks[1..])
  }

  /** As written, once `transcribe` raises the session is wedged: the flag
      stays raised with no pass running, so no later audio ever reaches the
      scratch buffer, no pass is ever scheduled, and nothing is ever sent
      again; every chunk that crosses the threshold is dropped (or, with
      `error_if_not_realtime`, exits the process). */
  lemma {:induction false} AsrFailureWedgesSessionAsWritten(
    st: State, elapsed: real, chunks: seq<seq<byte>>)
    requires st.machine.pass.Transcribing? && st.machine.strategy.processingFlag
    requires BytesPerSecond(st.machine.session) != 0
    ensures var w := OnAsrDoneAsWritten(st.machine, st.pool, AsrRaised, elapsed).machine;
      && w.strategy.processingFlag && w.pass == NoPass
      && (IngestAll(w, chunks).Continue? ==>
            var m' := IngestAll(w, chunks).next;
            && m'.pass == NoPass && m'.strategy.processingFlag
            && m'.session.scratch == st.machine.session.scratch
            && m'.sent == st.machine.sent)
  {
    var w := OnAsrDoneAsWritten(st.machine, st.pool, AsrRaised, elapsed).machine;
    WedgedStaysWedged(w, chunks);
  }

  lemma {:induction false} WedgedStaysWedged(m: Machine, chunks: seq<seq<byte>>)
    requires m.strategy.processingFlag && m.pass == NoPass
    ensures IngestAll(m, chunks).Continue? ==>
      var m' := IngestAll(m, chunks).next;
      && m'.pass == NoPass && m'.strategy == m.strategy
      && m'.session.scratch == m.session.scratch && m'.sent == m.sent
    decreases |chunks|
  {
    if |chunks| > 0 {
      var r := ProcessAudio(AppendAudio(m, chunks[0]));
      if r.Continue? {
        WedgedStaysWedged(r.next, chunks[1..]);
      }
    }
  }

  /** With the flag cleared on failure the session recovers: the invariant
      still holds, the audio and counter are kept, and the next chunk that
      crosses the threshold schedules a fresh pass over it. */
  lemma AsrFailureRecovers(st: State, elapsed: real, data: seq<byte>)
    requires Inv(st) && st.machine.pass.Transcribing? && BytesPerSecond(st.machine.session) != 0
    ensures var s := OnAsrDone(st.machine, st.pool, AsrRaised, elapsed);
      && Inv(s) && !s.machine.strategy.processingFlag
      && s.machine.session == st.machine.session
      && (OverThreshold(AppendAudio(s.machine, data)) ==>
            ProcessAudio(AppendAudio(s.machine, data)).Continue?
            && ProcessAudio(AppendAudio(s.machine, data)).next.pass == AwaitingVad)
  {
    assert ModelPool.Release(st.pool, st.machine.pass.engine).Success?;
    StepPreservesInv(st, AsrDone(AsrRaised, elapsed));
  }

  /** The corrected invariant is not one the source keeps: as written, a
      `transcribe` exception leaves a state that satisfies only the weaker
      invariant, with the flag raised and no pass running. */
  lemma CorrectedInvFailsAsWritten(st: State, elapsed: real)
    requires Inv(st) && st.machine.pass.Transcribing? && BytesPerSecond(st.machine.session) != 0
    ensures StepAsWritten(st, AsrDone(AsrRaised, elapsed)).Next?
    ensures var s := StepAsWritten(st, AsrDone(AsrRaised, elapsed)).state;
      InvAsWritten(s) && !Inv(s)
  {
    StepPreservesInvAsWritten(st, AsrDone(AsrRaised, elapsed));
  }

  /** As written, the same wedge follows an exception at the VAD stage:
      `detect_activity` raising, or the cutoff dividing by a zero byte rate.
      The flag stays raised with no pass, and no later audio reaches the
      scratch buffer, starts a pass or is sent. */
  lemma {:induction false} VadFailureWedgesSessionAsWritten(
    m: Machine, segments: seq<Segment>, chunks: seq<seq<byte>>)
    requires m.pass == AwaitingVad && m.strategy.processingFlag
    ensures var w := OnVadRaisedAsWritten(m);
      && w.strategy.processingFlag && w.pass == NoPass
      && (IngestAll(w, chunks).Continue? ==>
            var m' := IngestAll(w, chunks).next;
            && m'.pass == NoPass && m'.strategy.processingFlag
            && m'.session.scratch == m.session.scratch && m'.sent == m.sent)
    ensures |segments| > 0 && BytesPerSecond(m.session) == 0 ==>
      var w := OnVadDoneAsWritten(m, segments);
      && w.strategy.processingFlag && w.pass == NoPass
      && (IngestAll(w, chunks).Continue? ==>
            var m' := IngestAll(w, chunks).next;
            && m'.pass == NoPass && m'.strategy.processingFlag
            && m'.session.scratch == m.session.scratch && m'.sent == m.sent)
  {
    WedgedStaysWedged(OnVadRaisedAsWritten(m), chunks);
    if |segments| > 0 && BytesPerSecond(m.session) == 0 {
      WedgedStaysWedged(OnVadDoneAsWritten(m, segments), chunks);
    }
  }

  /** With the flag cleared on a VAD-stage exception the session recovers:
      the invariant holds, the audio is kept, and the next chunk that
      crosses the threshold schedules a fresh pass. */
  lemma VadFailureRecovers(st: State, segments: seq<Segment>, data: seq<byte>)
    requires Inv(st) && st.machine.pass == AwaitingVad
    ensures var s := Step(st, VadRaised).state;
      && Step(st, VadRaised).Next? && Inv(s) && !s.machine.strategy.processingFlag
      && s.machine.session == st.machine.session
      && (OverThreshold(AppendAudio(s.machine, data)) ==>
            ProcessAudio(AppendAudio(s.machine, data)).Continue?
            && ProcessAudio(AppendAudio(s.machine, data)).next.pass == AwaitingVad)
    ensures |segments| > 0 && BytesPerSecond(st.machine.session) == 0 ==>
      var s := Step(st, VadDone(segments)).state;
      && Step(st, VadDone(segments)).Next? && Inv(s) && !s.machine.strategy.processingFlag
      && s.machine.session == st.machine.session
      && (OverThreshold(AppendAudio(s.machine, data)) ==>
            ProcessAudio(AppendAudio(s.machine, data)).Continue?
            && ProcessAudio(AppendAudio(s.machine, data)).next.pass == AwaitingVad)
  {
    StepPreservesInv(st, VadRaised);
    StepPreservesInv(st, VadDone(segments));
  }
}
