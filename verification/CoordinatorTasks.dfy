/**
 The coordinator as it runs: its fields changed in place by handlers that call one another.

 Model gathers the fields, and every handler is proved to take it where the handler function does. Handle
 receives one event and keeps what the machine's runs keep, so Serve, which receives any number of them, can
 promise the results about runs of the fields themselves.

 Model is hidden in most handlers: proofs then follow its values from call to call and never look into all
 fields at once.
 */
module CoordinatorTasks {
  import opened Optional
  import opened Coordinator
  import opened CoordinatorRecording
  import opened CoordinatorPaste

  class VoiceStickCoordinator {
    var session: SessionState
    var activeSession: Option<nat>
    var activeDevice: Option<string>
    var frames: nat
    var buffered: seq<nat>
    var asrStarted: bool
    var sentFinal: bool
    var pastedFinal: bool
    var waiting: bool
    var generation: nat
    var pending: Pending
    var lastText: Option<string>
    var lastDevice: Option<string>
    var showingError: bool
    var outputs: seq<nat>
    var asr: seq<AsrCall>
    ghost var stopped: set<nat>
    var texts: seq<string>
    var callbacks: seq<Callback>
    var pastes: seq<Paste>

    ghost function Model(): State
      reads this
    {
      State(session, activeSession, activeDevice, frames, buffered, asrStarted, sentFinal, pastedFinal, waiting,
            generation, pending, lastText, lastDevice, showingError, outputs, asr, stopped, texts, callbacks, pastes)
    }

    ghost predicate Valid()
      reads this
    {
      RecInv(Model()) && PasteInv(DeskOf(Model()))
    }

    constructor ()
      ensures Model() == Fresh() && Valid()
    {
      session, activeSession, activeDevice, frames, buffered := Ready, None, None, 0, [];
      asrStarted, sentFinal, pastedFinal, waiting, generation := false, false, false, false, 0;
      pending, lastText, lastDevice, showingError := NOTHING, None, None, false;
      outputs, asr, stopped, texts, callbacks, pastes := [], [], {}, [], [], [];
    }

    // ---- ending a cycle ----

    method CancelAudioEndTimeout()
      modifies `waiting, `generation
      ensures Model() == CancelTimeout(old(Model()))
    {
      waiting := false;
      generation := generation + 1;
    }

    method FinishRecognitionCycle()
      modifies `waiting, `generation, `asrStarted, `sentFinal, `pastedFinal, `buffered
      ensures Model() == FinishCycle(old(Model()))
    {
      CancelAudioEndTimeout();
      asrStarted := false;
      sentFinal := false;
      pastedFinal := false;
      buffered := [];
    }

    method BecomeReady()
      modifies `session, `activeDevice
      ensures Model() == EnterReady(old(Model()))
    {
      session := Ready;
      activeDevice := None;
    }

    ghost method MarkStopped()
      modifies `stopped
      ensures Model() == Stop(old(Model()))
    {
      if outputs != [] {
        stopped := stopped + {|outputs| - 1};
      }
    }

    method CancelRecognizer()
      modifies `asr, `stopped
      ensures Model() == CancelAsr(old(Model()))
    {
      MarkStopped();
      asr := asr + [AsrCancel];
    }

    method ForgetSession()
      modifies `activeSession
      ensures Model() == old(Model()).(activeSession := None)
    {
      activeSession := None;
    }

    method ForgetPending()
      modifies `pending
      ensures Model() == old(Model()).(pending := NOTHING)
    {
      pending := NOTHING;
    }

    method EnterError()
      modifies `showingError, `session
      ensures Model() == old(Model()).(showingError := true, session := Error)
    {
      showingError := true;
      session := Error;
    }

    method FinishWithAsrError()
      modifies this
      ensures Model() == AsrError(old(Model()))
    {
      hide Model;
      CancelAudioEndTimeout();
      CancelRecognizer();
      ForgetPending();
      ForgetSession();
      FinishRecognitionCycle();
      EnterError();
    }

    method CancelShortRecording()
      modifies this
      ensures Model() == ShortRecording(old(Model()))
    {
      activeSession := None;
      CancelAudioEndTimeout();
      CancelRecognizer();
      FinishRecognitionCycle();
      BecomeReady();
    }

    method DropCycle()
      modifies this
      ensures Model() == Dropped(old(Model()))
    {
      hide Model;
      CancelRecognizer();
      ForgetSession();
      ForgetPending();
      FinishRecognitionCycle();
      BecomeReady();
    }

    method CancelRecognitionInProgress()
      modifies this
      ensures Model() == CancelRecognition(old(Model()))
    {
      CancelAudioEndTimeout();
      DropCycle();
    }

    // ---- chunks ----

    /** Starts the recognizer and gives it what was held back, the last chunk marked if it is final. */
    method StartAsrAndFlushBufferedChunks(lastChunkIsFinal: bool, startOk: bool) returns (ok: bool)
      modifies `asrStarted, `asr, `buffered
      ensures ok == (old(asrStarted) || startOk)
      ensures var s := old(Model());
        Model() == if s.asrStarted then s
                   else if !startOk then s.(buffered := [])
                   else s.(asrStarted := true, buffered := [],
                           asr := s.asr + [AsrStart(Current(s))] + Flushed(Current(s), s.buffered, lastChunkIsFinal))
    {
      if asrStarted {
        return true;
      }
      if !startOk {
        buffered := [];
        return false;
      }
      asrStarted := true;
      FlushBufferedChunks(lastChunkIsFinal, if outputs == [] then 0 else |outputs| - 1);
      buffered := [];
      ok := true;
    }

    method FlushBufferedChunks(lastChunkIsFinal: bool, recording: nat)
      modifies `asr
      ensures asr == old(asr) + [AsrStart(recording)] + Flushed(recording, buffered, lastChunkIsFinal)
    {
      asr := asr + [AsrStart(recording)];
      ghost var calls := Flushed(recording, buffered, lastChunkIsFinal);
      ghost var before := asr;
      for i := 0 to |buffered|
        invariant asr == before + calls[..i]
      {
        var isLast := i + 1 == |buffered| && lastChunkIsFinal;
        asr := asr + [AsrChunk(recording, buffered[i], isLast)];
        assert calls[..i + 1] == calls[..i] + [calls[i]];
      }
      assert calls[..|buffered|] == calls;
    }

    method SendOrBufferOggChunk(chunk: nat, isLast: bool, canStartAsr: bool, startOk: bool)
      modifies this
      ensures Model() == SendOrBuffer(old(Model()), chunk, isLast, canStartAsr, startOk)
    {
      if asrStarted {
        asr := asr + [AsrChunk(if outputs == [] then 0 else |outputs| - 1, chunk, isLast)];
        return;
      }
      buffered := buffered + [chunk];
      if canStartAsr {
        var ok := StartAsrAndFlushBufferedChunks(isLast, startOk);
        if !ok && !showingError {
          FinishWithAsrError();
        }
      }
    }

    /** One more page of the muxer; chunks are known by their number within the recording. */
    method TakeMuxerOutput() returns (chunk: nat)
      modifies `outputs
      ensures Model() == Muxed(old(Model())) && chunk == NextChunk(old(Model()))
    {
      chunk := 0;
      if outputs != [] {
        var last := |outputs| - 1;
        chunk := outputs[last];
        outputs := outputs[last := chunk + 1];
      }
    }

    method MarkFinalSent()
      modifies `sentFinal
      ensures Model() == old(Model()).(sentFinal := true)
    {
      sentFinal := true;
    }

    method EnterFinalizing()
      modifies `session
      ensures Model() == old(Model()).(session := Finalizing)
    {
      session := Finalizing;
    }

    method SendFinalOggChunkIfNeeded(long: bool, startOk: bool)
      modifies this
      ensures Model() == SendFinal(old(Model()), long, startOk)
    {
      if sentFinal {
        return;
      }
      var tooShort, empty := !asrStarted && !long, frames == 0;
      ghost var s := Model();
      assert tooShort == (!s.asrStarted && !long) && empty == (s.frames == 0) && !s.sentFinal;
      hide Model;
      MarkFinalSent();
      CancelAudioEndTimeout();
      if tooShort {
        CancelShortRecording();
        return;
      }
      if empty {
        ForgetSession();
        FinishWithAsrError();
        return;
      }
      SendLastChunk(startOk);
      assert NextChunk(CancelTimeout(s.(sentFinal := true))) == NextChunk(s);
    }

    method SendLastChunk(startOk: bool)
      modifies this
      ensures var s := old(Model());
        Model() == SendLast(Muxed(s).(activeSession := None), NextChunk(s), startOk)
    {
      hide Model, SendOrBuffer, Muxed, NextChunk;
      var finalChunk := TakeMuxerOutput();
      ForgetSession();
      SendOrBufferOggChunk(finalChunk, true, true, startOk);
      EnterFinalizing();
    }

    // ---- frames, END, timeout, loss ----

    method HandleAudioFrame(device: string, sessionId: nat, long: bool, startOk: bool)
      modifies this
      ensures Model() == Audio(old(Model()), device, sessionId, long, startOk)
    {
      if activeSession != Some(sessionId) || activeDevice != Some(device) {
        return;
      }
      var canStart := long && !waiting;
      assert Recorded(Model(), device, sessionId) && canStart == (long && !Model().waiting);
      hide Model, SendOrBuffer;
      var chunk := AppendFrame();
      SendOrBufferOggChunk(chunk, false, canStart, startOk);
    }

    method AppendFrame() returns (chunk: nat)
      modifies `frames, `outputs
      ensures var s := old(Model());
        Model() == Muxed(s).(frames := s.frames + 1) && chunk == NextChunk(s)
    {
      ghost var s := Model();
      hide Model;
      CountFrame();
      chunk := TakeMuxerOutput();
      MuxingCountsNoFrame(s);
    }

    method CountFrame()
      modifies `frames
      ensures Model() == old(Model()).(frames := old(Model()).frames + 1)
    {
      frames := frames + 1;
    }

    method HandleEndFrame(device: string, sessionId: nat, long: bool, startOk: bool)
      modifies this
      ensures Model() == Step(old(Model()), EndFrame(device, sessionId, long, startOk))
    {
      if activeSession == Some(sessionId) && activeDevice == Some(device) {
        CancelAudioEndTimeout();
        SendFinalOggChunkIfNeeded(long, startOk);
      }
    }

    method HandleAudioEndTimeout(scheduled: nat, owner: Option<nat>, holder: Option<string>, long: bool, startOk: bool)
      modifies this
      ensures Model() == Step(old(Model()), EndTimeout(scheduled, owner, holder, long, startOk))
    {
      if generation != scheduled || !waiting || activeSession != owner || activeDevice != holder {
        return;
      }
      SendFinalOggChunkIfNeeded(long, startOk);
    }

    method CancelActiveCycleOfLostDevice(long: bool, startOk: bool)
      modifies this
      ensures Model() == Lost(old(Model()), long, startOk)
    {
      if activeDevice.None? {
        return;
      }
      if waiting {
        SendFinalOggChunkIfNeeded(long, startOk);
        return;
      }
      DropCycle();
    }

    // ---- buttons ----

    method HandlePrimaryButtonUp(device: string, long: bool)
      modifies this
      ensures Model() == Up(old(Model()), device, long)
    {
      if activeSession.None? || activeDevice != Some(device) {
        return;
      }
      if !long {
        CancelShortRecording();
      } else if !waiting {
        waiting := true;
        session := Finalizing;
        generation := generation + 1;
      }
    }

    method HandlePrimaryButtonDown(offered: Option<nat>, device: string)
      modifies this
      ensures Model() == Down(old(Model()), offered, device)
    {
      if pending.kind != Idle {
        HandleFrontButtonDuringPendingPaste(device);
        return;
      }
      if session != Ready || activeDevice.Some? || offered.None? || offered.value == 0 {
        return;
      }
      StartRecording(offered.value, device);
    }

    /** The muxer is reset and its outputs are counted anew. */
    method StartRecording(sessionId: nat, device: string)
      modifies this
      ensures Model() == BeginRecording(old(Model()), sessionId, device)
    {
      hide Model;
      BindRecording(sessionId, device);
      ClearRecording();
      ForgetPending();
      ForgetError();
      OpenRecording();
    }

    method ForgetError()
      modifies `showingError
      ensures Model() == old(Model()).(showingError := false)
    {
      showingError := false;
    }

    method BindRecording(sessionId: nat, device: string)
      modifies `activeSession, `activeDevice, `frames
      ensures Model() == old(Model()).(activeSession := Some(sessionId), activeDevice := Some(device), frames := 0)
    {
      activeSession := Some(sessionId);
      activeDevice := Some(device);
      frames := 0;
    }

    method ClearRecording()
      modifies `buffered, `asrStarted, `sentFinal, `pastedFinal
      ensures Model() == old(Model()).(buffered := [], asrStarted := false, sentFinal := false, pastedFinal := false)
    {
      buffered := [];
      asrStarted := false;
      sentFinal := false;
      pastedFinal := false;
    }

    method OpenRecording()
      modifies `outputs, `session
      ensures Model() == old(Model()).(outputs := old(Model()).outputs + [0], session := Recording)
    {
      outputs := outputs + [0];
      session := Recording;
    }

    method HandleButtonClick(mode: Mode, offered: Option<nat>, device: string, long: bool)
      modifies this
      ensures Model() == Click(old(Model()), mode, offered, device, long)
    {
      if pending.kind != Idle {
        HandleFrontButtonDuringPendingPaste(device);
      } else if mode == ClickToTalk {
        if session == Recording && activeDevice == Some(device) {
          HandlePrimaryButtonUp(device, long);
        } else if session != Finalizing || activeDevice != Some(device) {
          HandlePrimaryButtonDown(offered, device);
        }
      }
    }

    // ---- confirmation ----

    method EnterPausedConfirmation(text: string)
      modifies `pending, `session
      ensures Model() == old(Model()).(pending := Pending(Paused, text), session := PausedConfirmation)
    {
      pending := Pending(Paused, text);
      session := PausedConfirmation;
    }

    method EnterPendingConfirmation(text: string)
      modifies `pending, `session, `texts, `callbacks
      ensures Model() == Confirm(old(Model()), text)
    {
      hide Model;
      AwaitPaste(text);
      ShowFinalCountdown(text);
    }

    method AwaitPaste(text: string)
      modifies `pending, `session
      ensures Model() == old(Model()).(pending := Pending(WaitingToPaste, text), session := PendingConfirmation)
    {
      pending := Pending(WaitingToPaste, text);
      session := PendingConfirmation;
    }

    method ShowFinalCountdown(text: string)
      modifies `texts, `callbacks
      ensures var s := old(Model());
        Model() == s.(texts := s.texts + [text], callbacks := s.callbacks + [Callback(text, |s.texts|)])
    {
      callbacks := callbacks + [Callback(text, |texts|)];
      texts := texts + [text];
    }

    method HandleFrontButtonDuringPendingPaste(device: string)
      requires pending.kind != Idle
      modifies `pending, `session, `callbacks
      ensures Model() == FrontButton(old(Model()), device)
    {
      if activeDevice != Some(device) {
        return;
      }
      if pending.kind == WaitingToPaste {
        EnterPausedConfirmation(pending.text);
        return;
      }
      callbacks := callbacks + [Callback(pending.text, if texts == [] then 0 else |texts| - 1)];
    }

    method MarkPasted()
      modifies `pastedFinal, `stopped
      ensures Model() == Stop(old(Model())).(pastedFinal := true)
    {
      MarkStopped();
      pastedFinal := true;
    }

    method Remember(text: string)
      modifies `lastText, `lastDevice
      ensures Model() == old(Model()).(lastText := Some(text), lastDevice := old(Model()).activeDevice)
    {
      lastText := Some(text);
      lastDevice := activeDevice;
    }

    method FinishWithFinalText(text: string)
      modifies this
      ensures Model() == FinalText(old(Model()), text)
    {
      if pastedFinal {
        return;
      }
      ghost var s := Model();
      assert Stop(s).activeDevice == s.activeDevice && !s.pastedFinal;
      hide Model, Confirm, Stop;
      MarkPasted();
      if text == "" {
        ForgetPending();
        FinishRecognitionCycle();
        BecomeReady();
        return;
      }
      Remember(text);
      EnterPendingConfirmation(text);
    }

    method CommitPendingPaste(text: string)
      modifies this
      ensures Model() == Commit(old(Model()), text)
    {
      if pending.text == text {
        CompletePendingPaste(text);
      }
    }

    method CompletePendingPaste(text: string)
      requires pending.text == text
      modifies this
      ensures Model() == Commit(old(Model()), text)
    {
      assert Model().pending.text == text;
      hide Model;
      ForgetPending();
      FinishRecognitionCycle();
      BecomeReady();
      PasteText(text);
    }

    method PasteText(text: string)
      modifies `pastes
      ensures var s := old(Model());
        Model() == s.(pastes := s.pastes + [Paste(text, if s.texts == [] then 0 else |s.texts| - 1)])
    {
      pastes := pastes + [Paste(text, if texts == [] then 0 else |texts| - 1)];
    }

    method RestoreLastInputConfirmation(device: Option<string>) returns (restored: bool)
      modifies this
      ensures Model() == Restore(old(Model()), device)
      ensures restored <==> Model() != old(Model())
    {
      if pending.kind != Idle || session != Ready || activeSession.Some? || lastText.None? {
        return false;
      }
      activeDevice := device;
      texts := texts + [lastText.value];
      EnterPausedConfirmation(lastText.value);
      restored := true;
    }

    method CancelPendingPaste(device: string)
      modifies this
      ensures Model() == Cancelled(old(Model()), device)
    {
      if activeSession.Some? || session == Finalizing {
        if activeDevice == Some(device) {
          CancelRecognitionInProgress();
        }
        return;
      }
      if pending.kind == Idle {
        var _ := RestoreLastInputConfirmation(Some(device));
        return;
      }
      if activeDevice != Some(device) {
        return;
      }
      pending := NOTHING;
      FinishRecognitionCycle();
      BecomeReady();
    }

    // ---- the rest ----

    method RecoverFromAsrError()
      modifies `showingError, `session, `activeDevice
      ensures Model() == Recover(old(Model()))
    {
      if !showingError {
        return;
      }
      showingError := false;
      BecomeReady();
    }

    method UpdateConfig(subtitling: bool)
      modifies this
      ensures Model() == Step(old(Model()), ConfigUpdated(subtitling))
    {
      if subtitling || asrStarted || activeSession.Some? || pending.kind != Idle {
        DropCycle();
      }
    }

    method RemovePairedDevice(device: string)
      modifies this
      ensures Model() == Step(old(Model()), DeviceForgotten(device))
    {
      if activeDevice == Some(device) {
        DropCycle();
      }
    }

    // ---- events ----

    /** One event, whatever it is. */
    method Handle(e: Event)
      requires Valid() && Possible(Model(), e)
      modifies this
      ensures Valid() && Model() == Step(old(Model()), e)
    {
      ghost var s := Model();
      EventKeeps(s, e);
      Dispatch(e);
      hide Model, Step, RecInv, PasteInv;
    }

    method Dispatch(e: Event)
      modifies this
      ensures Model() == Step(old(Model()), e)
    {
      hide Model;
      match e {
        case PrimaryDown(offered, device) => HandlePrimaryButtonDown(offered, device);
        case PrimaryUp(device, long) => HandlePrimaryButtonUp(device, long);
        case PrimaryClick(mode, offered, device, long) => HandleButtonClick(mode, offered, device, long);
        case SecondaryClick(device) => CancelPendingPaste(device);
        case AudioFrame(device, sessionId, long, startOk) => HandleAudioFrame(device, sessionId, long, startOk);
        case EndFrame(device, sessionId, long, startOk) => HandleEndFrame(device, sessionId, long, startOk);
        case EndTimeout(scheduled, owner, holder, long, startOk) =>
          HandleAudioEndTimeout(scheduled, owner, holder, long, startOk);
        case DeviceLost(long, startOk) => CancelActiveCycleOfLostDevice(long, startOk);
        case DeviceForgotten(device) => RemovePairedDevice(device);
        case ConfigUpdated(subtitling) => UpdateConfig(subtitling);
        case AsrFinal(text) => FinishWithFinalText(text);
        case AsrFailed => FinishWithAsrError();
        case UpgradeOffered => RecoverFromAsrError();
        case ErrorDismissed => RecoverFromAsrError();
        case RestoreChosen => RestoreFromMenu();
        case CallbackFires(callback) => CommitPendingPaste(callback.text);
      }
    }

    method RestoreFromMenu()
      modifies this
      ensures Model() == Restore(old(Model()), old(Model()).lastDevice)
    {
      var _ := RestoreLastInputConfirmation(lastDevice);
    }

    /** Everything that happens, from the start. Whatever it is: the recognizer was given each recording's
        chunks in order, all of them with the last one marked or none marked and recognition cancelled or
        answered; and each confirmation was pasted at most once, with its own text. */
    method Serve(events: seq<Event>)
      requires Model() == Fresh() && IsRun(Fresh(), events)
      modifies this
      ensures Valid() && Model() == Run(Fresh(), events)
      ensures forall r: nat :: r < |outputs| ==>
        && (Complete(Model(), r) || Unfinished(Model(), r))
        && (r < |outputs| - 1 || activeSession.None? ==> Settled(Model(), r))
      ensures forall i :: 0 <= i < |pastes| ==>
        pastes[i].confirmation < |texts| && pastes[i].text == texts[pastes[i].confirmation]
      ensures forall i, j :: 0 <= i < j < |pastes| ==> pastes[i].confirmation != pastes[j].confirmation
    {
      FreshKeeps();
      for i := 0 to |events|
        invariant Valid() && IsRun(Model(), events[i..])
        invariant Run(Model(), events[i..]) == Run(Fresh(), events)
      {
        ghost var rest := events[i..];
        assert rest[0] == events[i] && rest[1..] == events[i + 1..];
        assert Possible(Model(), events[i]);
        hide Model, Valid, Step, Possible;
        Handle(events[i]);
      }
      PastedOnce(events);
      forall r: nat | r < |outputs| {
        ChunksInOrder(events, r);
      }
      hide Complete, Unfinished, Settled, Run, IsRun, RecInv, PasteInv;
    }
  }

  lemma {:induction false} EventKeeps(s: State, e: Event)
    requires RecInv(s) && PasteInv(DeskOf(s)) && Possible(s, e)
    ensures RecInv(Step(s, e)) && PasteInv(DeskOf(Step(s, e)))
  {
    assert [e][1..] == [] && IsRun(s, [e]) && Run(s, [e]) == Step(s, e) by {
      assert IsRun(Step(s, e), []);
    }
    RunKeeps(s, [e]);
    hide Step, RecInv, PasteInv;
  }

  lemma {:induction false} FreshKeeps()
    ensures RecInv(Fresh()) && PasteInv(DeskOf(Fresh()))
  {
  }

  lemma {:induction false} MuxingCountsNoFrame(s: State)
    ensures Muxed(s.(frames := s.frames + 1)) == Muxed(s).(frames := s.frames + 1)
    ensures NextChunk(s.(frames := s.frames + 1)) == NextChunk(s)
  {
  }
}
