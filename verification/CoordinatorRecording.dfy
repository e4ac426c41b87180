/**
 What the recognizer is given of each recording, whatever order frames, buttons, END, timeouts,
 disconnects and errors come in.

 While a recording is live, what the recognizer has and what is buffered are together the muxer's output so
 far. Every way out of it, the last chunk, a refusal, a cancellation or a lost device, settles it: all chunks
 given and exactly the final one marked, or none marked and recognition cancelled or already answered.

 Each handler is shown to keep this; nothing it does touches recordings before the latest.
 */
module CoordinatorRecording {
  import opened Optional
  import opened Coordinator

  /** The chunks of one recording that the recognizer was given. */
  function Chunks(asr: seq<AsrCall>, recording: nat): seq<AsrCall> {
    if asr == [] then []
    else
      var last := asr[|asr| - 1];
      Chunks(asr[..|asr| - 1], recording) + if last.AsrChunk? && last.recording == recording then [last] else []
  }

  /** A stretch of the muxer's output from its start, with the last mark where wanted. */
  ghost predicate IsPrefix(chunks: seq<AsrCall>, recording: nat, n: nat, marked: bool) {
    && |chunks| == n
    && forall i :: 0 <= i < n ==> chunks[i] == AsrChunk(recording, i, marked && i + 1 == n)
  }

  /** All of the muxer's output in order, exactly the final chunk marked last. */
  ghost predicate Complete(s: State, recording: nat)
    requires recording < |s.outputs|
  {
    s.outputs[recording] > 0 && IsPrefix(Chunks(s.asr, recording), recording, s.outputs[recording], true)
  }

  /** A beginning of the muxer's output in order, no chunk marked last. */
  ghost predicate Unfinished(s: State, recording: nat)
    requires recording < |s.outputs|
  {
    exists n :: 0 <= n <= s.outputs[recording] && IsPrefix(Chunks(s.asr, recording), recording, n, false)
  }

  ghost predicate Settled(s: State, recording: nat)
    requires recording < |s.outputs|
  {
    Complete(s, recording) || (Unfinished(s, recording) && recording in s.stopped)
  }

  predicate Live(s: State) {
    s.activeSession.Some? && s.activeDevice.Some?
  }

  ghost predicate LiveInv(s: State) {
    && s.outputs != [] && !s.sentFinal && !s.showingError
    && s.frames == s.outputs[Current(s)]
    && (if s.asrStarted
        then s.buffered == [] && IsPrefix(Chunks(s.asr, Current(s)), Current(s), s.frames, false)
        else Chunks(s.asr, Current(s)) == [] && s.buffered == seq(s.frames, i => i))
    && (s.pending.kind != Idle ==> Current(s) in s.stopped)
  }

  ghost predicate RecInv(s: State) {
    && (forall n :: 0 <= n < |s.outputs| ==> Settled(s, n) || (Live(s) && n == Current(s)))
    && (Live(s) ==> LiveInv(s))
    && (s.waiting ==> Live(s))
    && (forall n: nat :: n >= |s.outputs| ==> Chunks(s.asr, n) == [])
  }

  // ---- chunk sequences ----

  lemma {:induction false} ChunksAppend(asr: seq<AsrCall>, call: AsrCall, recording: nat)
    ensures Chunks(asr + [call], recording)
         == Chunks(asr, recording) + if call.AsrChunk? && call.recording == recording then [call] else []
  {
    assert (asr + [call])[..|asr|] == asr;
  }

  lemma {:induction false} ChunksOfFlush(asr: seq<AsrCall>, calls: seq<AsrCall>, from: nat, recording: nat)
    requires forall i :: 0 <= i < |calls| ==> calls[i].AsrChunk? && calls[i].recording == from
    ensures Chunks(asr + calls, recording) == Chunks(asr, recording) + if recording == from then calls else []
    decreases |calls|
  {
    if calls == [] {
      assert asr + calls == asr;
      assert Chunks(asr, recording) + [] == Chunks(asr, recording);
    } else {
      var last := |calls| - 1;
      ChunksOfFlush(asr, calls[..last], from, recording);
      ChunksAppend(asr + calls[..last], calls[last], recording);
      assert asr + calls == asr + calls[..last] + [calls[last]];
      assert calls == calls[..last] + [calls[last]];
    }
  }

  /** Two states agree on everything the recognizer was given of all recordings but one. */
  ghost predicate OthersKept(s: State, t: State, recording: nat) {
    && |t.outputs| == |s.outputs| && s.stopped <= t.stopped
    && (forall n :: 0 <= n < |s.outputs| && n != recording ==> t.outputs[n] == s.outputs[n])
    && (forall n: nat :: n != recording ==> Chunks(t.asr, n) == Chunks(s.asr, n))
  }

  /** A state that is not recording keeps the invariant once the latest recording is settled. */
  lemma {:induction false} SettledKeeps(s: State, t: State)
    requires RecInv(s) && OthersKept(s, t, Current(s)) && !Live(t) && !t.waiting
    requires s.outputs != [] ==> Settled(t, Current(s))
    requires s.outputs == [] ==> t.asr == s.asr || Chunks(t.asr, 0) == []
    ensures RecInv(t)
  {
    hide Chunks, IsPrefix, LiveInv;
    forall n | 0 <= n < |t.outputs|
      ensures Settled(t, n)
    {
      if n != Current(s) {
        assert Settled(s, n);
      }
    }
  }

  lemma {:induction false} LiveKeeps(s: State, t: State)
    requires RecInv(s) && OthersKept(s, t, Current(s)) && Live(t) && LiveInv(t)
    ensures RecInv(t)
  {
    assert s.outputs != [];
    hide Chunks, IsPrefix, LiveInv;
    forall n | 0 <= n < |t.outputs|
      ensures Settled(t, n) || n == Current(t)
    {
      if n != Current(s) {
        assert Settled(s, n);
      }
    }
  }

  // ---- giving up ----

  lemma {:induction false} CancelKeepsChunks(s: State)
    ensures forall n: nat :: Chunks(CancelAsr(s).asr, n) == Chunks(s.asr, n)
  {
    forall n: nat
      ensures Chunks(s.asr + [AsrCancel], n) == Chunks(s.asr, n)
    {
      ChunksAppend(s.asr, AsrCancel, n);
    }
  }

  /** In every state the latest recording is settled, or would be once stopped. */
  lemma {:induction false} LatestWouldSettle(s: State)
    requires RecInv(s) && s.outputs != []
    ensures Complete(s, Current(s)) || Unfinished(s, Current(s))
  {
    var n := Current(s);
    if Live(s) {
      if s.asrStarted {
        assert IsPrefix(Chunks(s.asr, n), n, s.frames, false);
      } else {
        assert IsPrefix(Chunks(s.asr, n), n, 0, false);
      }
    } else {
      assert Settled(s, n);
    }
  }

  /** Cancelling the recognizer and leaving the recording settles it. */
  lemma {:induction false} GivingUpKeeps(s: State, t: State)
    requires RecInv(s) && !Live(t) && !t.waiting
    requires t.asr == CancelAsr(s).asr && t.outputs == s.outputs && t.stopped == CancelAsr(s).stopped
    ensures RecInv(t)
  {
    CancelKeepsChunks(s);
    if s.outputs != [] {
      LatestWouldSettle(s);
    }
    hide Chunks, IsPrefix, LiveInv;
    assert s.outputs != [] ==> Settled(t, Current(s));
    SettledKeeps(s, t);
  }

  lemma {:induction false} ShortKeeps(s: State)
    requires RecInv(s)
    ensures RecInv(ShortRecording(s))
  {
    hide RecInv;
    GivingUpKeeps(s, ShortRecording(s));
  }

  lemma {:induction false} DroppedKeeps(s: State)
    requires RecInv(s)
    ensures RecInv(Dropped(s))
  {
    hide RecInv;
    GivingUpKeeps(s, Dropped(s));
  }

  lemma {:induction false} CancelRecognitionKeeps(s: State)
    requires RecInv(s)
    ensures RecInv(CancelRecognition(s))
  {
    hide RecInv;
    GivingUpKeeps(s, CancelRecognition(s));
  }

  lemma {:induction false} AsrErrorKeeps(s: State)
    requires RecInv(s)
    ensures RecInv(AsrError(s))
  {
    hide RecInv;
    GivingUpKeeps(s, AsrError(s));
  }

  /** Leaving a recording that has delivered its text, or that is none. */
  lemma {:induction false} LeavingKeeps(s: State, t: State)
    requires RecInv(s) && !Live(t) && !t.waiting
    requires t.asr == s.asr && t.outputs == s.outputs && s.stopped <= t.stopped
    requires Live(s) ==> Current(s) in t.stopped
    ensures RecInv(t)
  {
    if s.outputs != [] {
      LatestWouldSettle(s);
      assert !Live(s) ==> Settled(s, Current(s));
    }
    hide Chunks, IsPrefix, LiveInv;
    assert s.outputs != [] ==> Settled(t, Current(s));
    SettledKeeps(s, t);
  }

  // ---- chunks to the recognizer ----

  lemma {:induction false} SendOrBufferKeepsOthers(s: State, chunk: nat, isLast: bool, canStart: bool, startOk: bool)
    requires s.outputs != []
    ensures OthersKept(s, SendOrBuffer(s, chunk, isLast, canStart, startOk), Current(s))
  {
    var t, cur := SendOrBuffer(s, chunk, isLast, canStart, startOk), Current(s);
    CancelKeepsChunks(s);
    forall n: nat | n != cur
      ensures Chunks(t.asr, n) == Chunks(s.asr, n)
    {
      if s.asrStarted {
        ChunksAppend(s.asr, AsrChunk(cur, chunk, isLast), n);
      } else if canStart && startOk {
        ChunksAppend(s.asr, AsrStart(cur), n);
        ChunksOfFlush(s.asr + [AsrStart(cur)], Flushed(cur, s.buffered + [chunk], isLast), cur, n);
      }
    }
  }

  /** The muxer's next output, given to the recognizer if it runs or is started, held otherwise. */
  lemma {:induction false} ChunkGiven(s: State, m: State, isLast: bool, canStart: bool, startOk: bool)
    requires LiveInv(s) && m.asr == s.asr && m.asrStarted == s.asrStarted && m.buffered == s.buffered
    requires m.outputs == s.outputs[Current(s) := s.frames + 1]
    ensures var t := SendOrBuffer(m, s.frames, isLast, canStart, startOk);
      s.asrStarted || (canStart && startOk) ==>
        && t == m.(asrStarted := true, buffered := [], asr := t.asr)
        && IsPrefix(Chunks(t.asr, Current(s)), Current(s), s.frames + 1, isLast)
    ensures !s.asrStarted && !canStart ==>
      SendOrBuffer(m, s.frames, isLast, canStart, startOk) == m.(buffered := seq(s.frames + 1, i => i))
  {
    if s.asrStarted {
      ChunksAppend(s.asr, AsrChunk(Current(s), s.frames, isLast), Current(s));
    } else {
      assert s.buffered + [s.frames] == seq(s.frames + 1, i => i);
      if canStart && startOk {
        FlushGiven(s, isLast);
      }
    }
  }

  /** Everything held back goes to the recognizer that has just been started. */
  lemma {:induction false} FlushGiven(s: State, isLast: bool)
    requires LiveInv(s) && !s.asrStarted
    ensures var held := seq(s.frames + 1, i => i);
      IsPrefix(Chunks(s.asr + [AsrStart(Current(s))] + Flushed(Current(s), held, isLast), Current(s)),
               Current(s), s.frames + 1, isLast)
  {
    var cur, held := Current(s), seq(s.frames + 1, i => i);
    var calls := Flushed(cur, held, isLast);
    ChunksAppend(s.asr, AsrStart(cur), cur);
    ChunksOfFlush(s.asr + [AsrStart(cur)], calls, cur, cur);
    hide Chunks;
    assert [] + calls == calls;
  }

  // ---- every step ----

  lemma {:induction false} BeginKeeps(s: State, sessionId: nat, device: string)
    requires RecInv(s) && s.activeDevice.None?
    ensures RecInv(BeginRecording(s, sessionId, device))
  {
    var t := BeginRecording(s, sessionId, device);
    assert Chunks(s.asr, |s.outputs|) == [];
    hide Chunks, IsPrefix;
    forall n | 0 <= n < |s.outputs|
      ensures Settled(t, n)
    {
      assert Settled(s, n);
    }
    assert LiveInv(t);
    hide LiveInv;
  }

  lemma {:induction false} AudioKeeps(s: State, device: string, sessionId: nat, long: bool, startOk: bool)
    requires RecInv(s) && Recorded(s, device, sessionId)
    ensures RecInv(Audio(s, device, sessionId, long, startOk))
  {
    var m, canStart := Muxed(s).(frames := s.frames + 1), long && !s.waiting;
    LiveFacts(s);
    hide RecInv, SendOrBuffer;
    MoreAudioKeeps(s, m, canStart, startOk);
  }

  lemma {:induction false} MoreAudioKeeps(s: State, m: State, canStart: bool, startOk: bool)
    requires RecInv(s) && Live(s) && s.outputs != []
    requires m == s.(frames := s.frames + 1, outputs := s.outputs[Current(s) := s.frames + 1])
    ensures RecInv(SendOrBuffer(m, s.frames, false, canStart, startOk))
  {
    LiveFacts(s);
    assert LiveInv(s);
    ChunkGiven(s, m, false, canStart, startOk);
    SendOrBufferKeepsOthers(m, s.frames, false, canStart, startOk);
    var t := SendOrBuffer(m, s.frames, false, canStart, startOk);
    if s.asrStarted || startOk || !canStart {
      assert LiveInv(t) by { hide SendOrBuffer, Chunks, IsPrefix, RecInv; }
      hide RecInv, LiveInv, SendOrBuffer, Chunks;
      LiveKeeps(s, t);
    } else {
      hide RecInv, LiveInv, Chunks, IsPrefix;
      RefusedKeeps(s, m, s.frames, false, startOk, t);
    }
  }

  /** The recognizer would not start: the recording is cancelled with one output more. */
  lemma {:induction false} GivenUpAfterMuxing(s: State, m: State, t: State)
    requires RecInv(s) && Live(s) && s.outputs != [] && !s.asrStarted
    requires m.asr == s.asr && m.stopped == s.stopped && m.outputs == s.outputs[Current(s) := s.frames + 1]
    requires t.asr == AsrError(m).asr && t.outputs == m.outputs && t.stopped == AsrError(m).stopped
    requires !Live(t) && !t.waiting
    ensures RecInv(t)
  {
    var n := Current(s);
    CancelKeepsChunks(s);
    assert IsPrefix(Chunks(t.asr, n), n, 0, false);
    assert Unfinished(t, n) && n in t.stopped;
    hide Chunks, IsPrefix, LiveInv;
    SettledKeeps(s, t);
  }

  lemma {:induction false} SendFinalKeeps(s: State, long: bool, startOk: bool)
    requires RecInv(s) && Live(s)
    ensures RecInv(SendFinal(s, long, startOk))
  {
    LiveFacts(s);
    var closing := CancelTimeout(s.(sentFinal := true));
    hide RecInv, SendLast, SendOrBuffer;
    if !s.asrStarted && !long {
      ClosedKeeps(s, closing);
    } else if s.frames == 0 {
      ClosedKeeps(s, closing);
    } else {
      FinalChunkKeeps(s, Muxed(closing).(activeSession := None), startOk);
    }
  }

  lemma {:induction false} LiveFacts(s: State)
    requires RecInv(s)
    ensures Live(s) ==> s.outputs != [] && !s.sentFinal && !s.showingError && s.frames == s.outputs[Current(s)]
    ensures s.waiting ==> Live(s)
  {
    hide Chunks, IsPrefix;
  }

  lemma {:induction false} ClosedKeeps(s: State, closing: State)
    requires RecInv(s) && closing == CancelTimeout(s.(sentFinal := true))
    ensures RecInv(ShortRecording(closing)) && RecInv(AsrError(closing.(activeSession := None)))
  {
    hide RecInv;
    GivingUpKeeps(s, ShortRecording(closing));
    GivingUpKeeps(s, AsrError(closing.(activeSession := None)));
  }

  /** The muxer's closing output: with it the recording is complete, or the recognizer would not start. */
  lemma {:induction false} FinalChunkKeeps(s: State, m: State, startOk: bool)
    requires RecInv(s) && Live(s) && s.outputs != [] && s.frames > 0
    requires m == s.(sentFinal := true, waiting := false, generation := m.generation, activeSession := None,
                     outputs := s.outputs[Current(s) := s.frames + 1])
    ensures RecInv(SendLast(m, s.frames, startOk))
  {
    LiveFacts(s);
    assert LiveInv(s);
    ChunkGiven(s, m, true, true, startOk);
    SendOrBufferKeepsOthers(m, s.frames, true, true, startOk);
    hide RecInv, LiveInv, Chunks, IsPrefix, Complete;
    if s.asrStarted || startOk {
      hide SendOrBuffer;
      var t := SendLast(m, s.frames, startOk);
      assert Complete(t, Current(s)) by { CompleteIf(s, t); }
      SettledKeeps(s, t);
    } else {
      RefusedKeeps(s, m, s.frames, true, startOk, SendLast(m, s.frames, startOk));
    }
  }

  lemma {:induction false} CompleteIf(s: State, t: State)
    requires s.outputs != [] && t.outputs == s.outputs[Current(s) := s.frames + 1]
    requires IsPrefix(Chunks(t.asr, Current(s)), Current(s), s.frames + 1, true)
    ensures Complete(t, Current(s))
  {
  }

  /** The recognizer would not start with a chunk that should start it. */
  lemma {:induction false} RefusedKeeps(s: State, m: State, chunk: nat, isLast: bool, startOk: bool, t: State)
    requires RecInv(s) && Live(s) && s.outputs != [] && !s.asrStarted && !startOk && !s.showingError
    requires m.asrStarted == s.asrStarted && m.showingError == s.showingError
    requires m.asr == s.asr && m.stopped == s.stopped && m.outputs == s.outputs[Current(s) := s.frames + 1]
    requires t == SendOrBuffer(m, chunk, isLast, true, startOk).(session := t.session)
    ensures RecInv(t)
  {
    hide RecInv;
    GivenUpAfterMuxing(s, m.(buffered := []), t);
  }

  lemma {:induction false} TimeoutCleared(s: State, generation: nat)
    requires RecInv(s)
    ensures RecInv(s.(waiting := false, generation := generation))
  {
    hide Chunks, IsPrefix;
    var t := s.(waiting := false, generation := generation);
    forall n | 0 <= n < |t.outputs|
      ensures Settled(t, n) || (Live(t) && n == Current(t))
    {
      assert Settled(s, n) || (Live(s) && n == Current(s));
    }
  }

  /** Steps that leave the recording, the recognizer and the muxer alone. */
  lemma {:induction false} UntouchedKeeps(s: State, t: State)
    requires RecInv(s) && t.outputs == s.outputs && t.asr == s.asr && s.stopped <= t.stopped
    requires Live(t) == Live(s) && t.waiting == s.waiting && t.sentFinal == s.sentFinal
    requires t.asrStarted == s.asrStarted && t.buffered == s.buffered && t.frames == s.frames
    requires Live(s) ==> !t.showingError && (t.pending.kind != Idle ==> s.pending.kind != Idle || Current(s) in t.stopped)
    ensures RecInv(t)
  {
    hide Chunks, IsPrefix;
    forall n | 0 <= n < |t.outputs|
      ensures Settled(t, n) || (Live(t) && n == Current(t))
    {
      assert Settled(s, n) || (Live(s) && n == Current(s));
    }
  }

  lemma {:induction false} UpKeeps(s: State, device: string, long: bool)
    requires RecInv(s)
    ensures RecInv(Up(s, device, long))
  {
    hide Chunks, IsPrefix;
    if s.activeSession.Some? && s.activeDevice == Some(device) {
      if !long {
        ShortKeeps(s);
        hide ShortRecording;
      } else {
        TimeoutCleared(s, s.generation + 1);
        var cleared := s.(waiting := false, generation := s.generation + 1);
        var t := Up(s, device, long);
        if !s.waiting {
          WaitingKeeps(cleared, t);
        }
      }
    }
  }

  lemma {:induction false} WaitingKeeps(s: State, t: State)
    requires RecInv(s) && Live(s) && t == s.(waiting := true, session := Finalizing)
    ensures RecInv(t)
  {
    hide Chunks, IsPrefix;
    forall n | 0 <= n < |t.outputs|
      ensures Settled(t, n) || (Live(t) && n == Current(t))
    {
      assert Settled(s, n) || (Live(s) && n == Current(s));
    }
  }

  lemma {:induction false} DownKeeps(s: State, offered: Option<nat>, device: string)
    requires RecInv(s)
    ensures RecInv(Down(s, offered, device))
  {
    if s.pending.kind != Idle {
      hide LiveInv;
      PausingKeeps(s, FrontButton(s, device));
    } else if s.session == Ready && s.activeDevice.None? && offered.Some? && offered.value != 0 {
      BeginKeeps(s, offered.value, device);
    }
  }

  lemma {:induction false} PausingKeeps(s: State, t: State)
    requires RecInv(s) && s.pending.kind != Idle
    requires t == s || t == Pause(s) || t == s.(callbacks := t.callbacks)
    ensures RecInv(t)
  {
    assert Live(s) ==> !s.showingError;
    hide Chunks, IsPrefix;
    UntouchedKeeps(s, t);
  }

  lemma {:induction false} FinalTextKeeps(s: State, text: string)
    requires RecInv(s)
    ensures RecInv(FinalText(s, text))
  {
    if !s.pastedFinal {
      assert Live(s) ==> s.outputs != [] && !s.showingError;
      hide Chunks, IsPrefix, LiveInv;
      if text == "" {
        LeavingKeeps(s, FinalText(s, text));
      } else {
        UntouchedKeeps(s, FinalText(s, text));
      }
    }
  }

  lemma {:induction false} RecoverKeeps(s: State)
    requires RecInv(s)
    ensures RecInv(Recover(s))
  {
    if s.showingError {
      assert !Live(s);
      hide Chunks, IsPrefix, LiveInv;
      UntouchedKeeps(s, Recover(s));
    }
  }

  lemma {:induction false} CancelledKeeps(s: State, device: string)
    requires RecInv(s)
    ensures RecInv(Cancelled(s, device))
  {
    CancelRecognitionKeeps(s);
    RestoreKeeps(s, Some(device));
    if s.activeSession.None? && s.session != Finalizing && s.pending.kind != Idle && s.activeDevice == Some(device) {
      hide RecInv;
      LeavingKeeps(s, Cancelled(s, device));
    }
    hide RecInv, CancelRecognition, Restore;
  }

  lemma {:induction false} RestoreKeeps(s: State, device: Option<string>)
    requires RecInv(s)
    ensures RecInv(Restore(s, device))
  {
    if Restore(s, device) != s {
      assert !Live(s);
      hide RecInv, LiveInv;
      UntouchedKeeps(s, Restore(s, device));
    }
  }

  lemma {:induction false} CommitKeeps(s: State, text: string)
    requires RecInv(s) && (s.pending.text == text ==> s.pending.kind != Idle)
    ensures RecInv(Commit(s, text))
  {
    if s.pending.text == text {
      assert Live(s) ==> Current(s) in s.stopped;
      hide Chunks, IsPrefix, LiveInv;
      LeavingKeeps(s, Commit(s, text));
    }
  }

  lemma {:induction false} StepKeeps(s: State, e: Event)
    requires RecInv(s)
    requires e.CallbackFires? ==> (s.pending.text == e.callback.text ==> s.pending.kind != Idle)
    ensures RecInv(Step(s, e))
  {
    LiveFacts(s);
    hide RecInv, SendFinal, SendOrBuffer, Down, Up, Click, Cancelled, FinalText, Commit;
    match e {
      case PrimaryDown(offered, device) => DownKeeps(s, offered, device);
      case PrimaryUp(device, long) => UpKeeps(s, device, long);
      case PrimaryClick(_, offered, device, long) => ClickKeeps(s, e);
      case SecondaryClick(device) => CancelledKeeps(s, device);
      case AudioFrame(device, sessionId, long, startOk) =>
        if Recorded(s, device, sessionId) {
          AudioKeeps(s, device, sessionId, long, startOk);
        }
      case EndFrame(device, sessionId, long, startOk) =>
        if Recorded(s, device, sessionId) {
          TimeoutCleared(s, s.generation + 1);
          SendFinalKeeps(CancelTimeout(s), long, startOk);
        }
      case EndTimeout(_, _, _, long, startOk) =>
        if s.waiting {
          SendFinalKeeps(s, long, startOk);
        }
      case AsrFinal(text) => FinalTextKeeps(s, text);
      case CallbackFires(callback) => CommitKeeps(s, callback.text);
      case _ => OtherStepKeeps(s, e);
    }
  }

  lemma {:induction false} ClickKeeps(s: State, e: Event)
    requires RecInv(s) && e.PrimaryClick?
    ensures RecInv(Step(s, e))
  {
    DownKeeps(s, e.offered, e.device);
    UpKeeps(s, e.device, e.long);
    assert s.pending.kind != Idle ==> Down(s, e.offered, e.device) == FrontButton(s, e.device);
    hide RecInv, Down, Up;
  }

  lemma {:induction false} OtherStepKeeps(s: State, e: Event)
    requires RecInv(s)
    requires e.DeviceLost? || e.DeviceForgotten? || e.ConfigUpdated? || e.AsrFailed? || e.UpgradeOffered?
             || e.ErrorDismissed? || e.RestoreChosen?
    ensures RecInv(Step(s, e))
  {
    hide RecInv, Lost, Dropped, AsrError, Restore, Recover;
    match e {
      case DeviceLost(long, startOk) => LostKeeps(s, long, startOk);
      case AsrFailed => AsrErrorKeeps(s);
      case RestoreChosen => RestoreKeeps(s, s.lastDevice);
      case DeviceForgotten(_) => DroppedKeeps(s);
      case ConfigUpdated(_) => DroppedKeeps(s);
      case _ => RecoverKeeps(s);
    }
  }

  lemma {:induction false} LostKeeps(s: State, long: bool, startOk: bool)
    requires RecInv(s)
    ensures RecInv(Lost(s, long, startOk))
  {
    LiveFacts(s);
    hide RecInv, SendFinal, Dropped;
    if s.waiting {
      SendFinalKeeps(s, long, startOk);
    } else {
      DroppedKeeps(s);
    }
  }
}
