/**
 The Windows coordinator while text goes to the focused app: one recording at a time, its chunks given to
 the recognizer, and the confirmation before its text is pasted. Every handler is one step.
 */
module Coordinator {
  import opened Optional

  datatype SessionState = Ready | Recording | Finalizing | PendingConfirmation | PausedConfirmation | Error

  datatype Mode = HoldToTalk | ClickToTalk

  datatype Kind = Idle | WaitingToPaste | Paused

  datatype Pending = Pending(kind: Kind, text: string)

  const NOTHING: Pending := Pending(Idle, "")

  /** Calls made to the recognizer: chunk index k of a recording is the muxer's k-th output in it. */
  datatype AsrCall =
    | AsrStart(recording: nat)
    | AsrChunk(recording: nat, index: nat, isLast: bool)
    | AsrCancel

  /** An overlay callback, holding the text of the confirmation it was made for. */
  datatype Callback = Callback(text: string, confirmation: nat)

  datatype Paste = Paste(text: string, confirmation: nat)

  /** outputs counts the muxer's outputs of every recording so far; stopped holds the recordings whose
      recognition was cancelled or had delivered its text; texts lists the confirmations' texts. */
  datatype State = State(
    session: SessionState,
    activeSession: Option<nat>,
    activeDevice: Option<string>,
    frames: nat,
    buffered: seq<nat>,
    asrStarted: bool,
    sentFinal: bool,
    pastedFinal: bool,
    waiting: bool,
    generation: nat,
    pending: Pending,
    lastText: Option<string>,
    lastDevice: Option<string>,
    showingError: bool,
    outputs: seq<nat>,
    asr: seq<AsrCall>,
    stopped: set<nat>,
    texts: seq<string>,
    callbacks: seq<Callback>,
    pastes: seq<Paste>)

  /** long says whether the recording has lasted half a second; startOk whether the recognizer starts. */
  datatype Event =
    | PrimaryDown(offered: Option<nat>, device: string)
    | PrimaryUp(device: string, long: bool)
    | PrimaryClick(mode: Mode, offered: Option<nat>, device: string, long: bool)
    | SecondaryClick(device: string)
    | AudioFrame(device: string, sessionId: nat, long: bool, startOk: bool)
    | EndFrame(device: string, sessionId: nat, long: bool, startOk: bool)
    | EndTimeout(scheduled: nat, owner: Option<nat>, holder: Option<string>, long: bool, startOk: bool)
    | DeviceLost(long: bool, startOk: bool)
    | DeviceForgotten(device: string)
    | ConfigUpdated(subtitling: bool)
    | AsrFinal(text: string)
    | AsrFailed
    | UpgradeOffered
    | ErrorDismissed
    | RestoreChosen
    | CallbackFires(callback: Callback)

  function Fresh(): State {
    State(Ready, None, None, 0, [], false, false, false, false, 0, NOTHING, None, None, false, [], [], {}, [], [], [])
  }

  // ---- the recording ----

  function Current(s: State): nat {
    if s.outputs == [] then 0 else |s.outputs| - 1
  }

  function CancelTimeout(s: State): State {
    s.(waiting := false, generation := s.generation + 1)
  }

  function FinishCycle(s: State): State {
    CancelTimeout(s).(asrStarted := false, sentFinal := false, pastedFinal := false, buffered := [])
  }

  function EnterReady(s: State): State {
    s.(session := Ready, activeDevice := None)
  }

  /** The latest recording needs no further chunk. */
  function Stop(s: State): State {
    if s.outputs == [] then s else s.(stopped := s.stopped + {Current(s)})
  }

  function CancelAsr(s: State): State {
    Stop(s).(asr := s.asr + [AsrCancel])
  }

  function AsrError(s: State): State {
    FinishCycle(CancelAsr(CancelTimeout(s)).(pending := NOTHING, activeSession := None))
      .(showingError := true, session := Error)
  }

  function ShortRecording(s: State): State {
    EnterReady(FinishCycle(CancelAsr(CancelTimeout(s.(activeSession := None)))))
  }

  function CancelRecognition(s: State): State {
    Dropped(CancelTimeout(s))
  }

  /** The recording or confirmation is given up with its device or its settings. */
  function Dropped(s: State): State {
    EnterReady(FinishCycle(CancelAsr(s).(activeSession := None, pending := NOTHING)))
  }

  /** The buffered chunks as the flush loop sends them. */
  function Flushed(recording: nat, chunks: seq<nat>, lastIsFinal: bool): seq<AsrCall> {
    seq(|chunks|, i requires 0 <= i < |chunks| =>
      AsrChunk(recording, chunks[i], i + 1 == |chunks| && lastIsFinal))
  }

  function SendOrBuffer(s: State, chunk: nat, isLast: bool, canStart: bool, startOk: bool): State {
    if s.asrStarted then s.(asr := s.asr + [AsrChunk(Current(s), chunk, isLast)])
    else
      var held := s.(buffered := s.buffered + [chunk]);
      if !canStart then held
      else if startOk then
        held.(asrStarted := true, buffered := [],
              asr := s.asr + [AsrStart(Current(s))] + Flushed(Current(s), held.buffered, isLast))
      else if s.showingError then held.(buffered := [])
      else AsrError(held.(buffered := []))
  }

  /** The muxer has one more output. */
  function Muxed(s: State): State {
    if s.outputs == [] then s else s.(outputs := s.outputs[Current(s) := s.outputs[Current(s)] + 1])
  }

  function NextChunk(s: State): nat {
    if s.outputs == [] then 0 else s.outputs[Current(s)]
  }

  function SendFinal(s: State, long: bool, startOk: bool): State {
    if s.sentFinal then s
    else
      var closing := CancelTimeout(s.(sentFinal := true));
      if !s.asrStarted && !long then ShortRecording(closing)
      else if s.frames == 0 then AsrError(closing.(activeSession := None))
      else SendLast(Muxed(closing).(activeSession := None), NextChunk(s), startOk)
  }

  function SendLast(s: State, chunk: nat, startOk: bool): State {
    SendOrBuffer(s, chunk, true, true, startOk).(session := Finalizing)
  }

  function BeginRecording(s: State, sessionId: nat, device: string): State {
    s.(activeSession := Some(sessionId), activeDevice := Some(device), frames := 0, buffered := [],
       asrStarted := false, sentFinal := false, pastedFinal := false, pending := NOTHING, showingError := false,
       session := Recording, outputs := s.outputs + [0])
  }

  function Audio(s: State, device: string, sessionId: nat, long: bool, startOk: bool): State {
    if !Recorded(s, device, sessionId) then s
    else SendOrBuffer(Muxed(s).(frames := s.frames + 1), NextChunk(s), false, long && !s.waiting, startOk)
  }

  predicate Recorded(s: State, device: string, sessionId: nat) {
    s.activeSession == Some(sessionId) && s.activeDevice == Some(device)
  }

  // ---- the confirmation ----

  function Confirm(s: State, text: string): State {
    s.(pending := Pending(WaitingToPaste, text), session := PendingConfirmation, texts := s.texts + [text],
       callbacks := s.callbacks + [Callback(text, |s.texts|)])
  }

  function Pause(s: State): State {
    s.(pending := Pending(Paused, s.pending.text), session := PausedConfirmation)
  }

  function Restore(s: State, device: Option<string>): State {
    if s.pending.kind != Idle || s.session != Ready || s.activeSession.Some? || s.lastText.None? then s
    else
      s.(activeDevice := device, pending := Pending(Paused, s.lastText.value), session := PausedConfirmation,
         texts := s.texts + [s.lastText.value])
  }

  /** Compares texts only: whichever confirmation is pending, waiting or paused, is committed by an equal text. */
  function Commit(s: State, text: string): State {
    if s.pending.text != text then s
    else
      var paste := Paste(text, if s.texts == [] then 0 else |s.texts| - 1);
      EnterReady(FinishCycle(s.(pending := NOTHING))).(pastes := s.pastes + [paste])
  }

  /** The front button while a confirmation is pending: pause, or commit once the overlay is hidden. */
  function FrontButton(s: State, device: string): State {
    if s.activeDevice != Some(device) then s
    else if s.pending.kind == WaitingToPaste then Pause(s)
    else s.(callbacks := s.callbacks + [Callback(s.pending.text, if s.texts == [] then 0 else |s.texts| - 1)])
  }

  function FinalText(s: State, text: string): State {
    if s.pastedFinal then s
    else
      var heard := Stop(s).(pastedFinal := true);
      if text == "" then EnterReady(FinishCycle(heard.(pending := NOTHING)))
      else Confirm(heard.(lastText := Some(text), lastDevice := s.activeDevice), text)
  }

  function Cancelled(s: State, device: string): State {
    if s.activeSession.Some? then if s.activeDevice == Some(device) then CancelRecognition(s) else s
    else if s.session == Finalizing then if s.activeDevice == Some(device) then CancelRecognition(s) else s
    else if s.pending.kind == Idle then Restore(s, Some(device))
    else if s.activeDevice != Some(device) then s
    else EnterReady(FinishCycle(s.(pending := NOTHING)))
  }

  // ---- buttons ----

  function Down(s: State, offered: Option<nat>, device: string): State {
    if s.pending.kind != Idle then FrontButton(s, device)
    else if s.session != Ready || s.activeDevice.Some? then s
    else if offered.None? || offered.value == 0 then s
    else BeginRecording(s, offered.value, device)
  }

  function Up(s: State, device: string, long: bool): State {
    if s.activeSession.None? || s.activeDevice != Some(device) then s
    else if !long then ShortRecording(s)
    else if s.waiting then s
    else s.(waiting := true, generation := s.generation + 1, session := Finalizing)
  }

  function Click(s: State, mode: Mode, offered: Option<nat>, device: string, long: bool): State {
    if s.pending.kind != Idle then FrontButton(s, device)
    else if mode != ClickToTalk then s
    else if s.session == Recording && s.activeDevice == Some(device) then Up(s, device, long)
    else if s.session == Finalizing && s.activeDevice == Some(device) then s
    else Down(s, offered, device)
  }

  function Recover(s: State): State {
    if !s.showingError then s else EnterReady(s.(showingError := false))
  }

  function Lost(s: State, long: bool, startOk: bool): State {
    if s.activeDevice.None? then s
    else if s.waiting then SendFinal(s, long, startOk)
    else Dropped(s)
  }

  function Step(s: State, e: Event): State {
    match e
    case PrimaryDown(offered, device) => Down(s, offered, device)
    case PrimaryUp(device, long) => Up(s, device, long)
    case PrimaryClick(mode, offered, device, long) => Click(s, mode, offered, device, long)
    case SecondaryClick(device) => Cancelled(s, device)
    case AudioFrame(device, sessionId, long, startOk) => Audio(s, device, sessionId, long, startOk)
    case EndFrame(device, sessionId, long, startOk) =>
      if !Recorded(s, device, sessionId) then s
      else SendFinal(CancelTimeout(s), long, startOk)
    case EndTimeout(scheduled, owner, holder, long, startOk) =>
      if scheduled != s.generation || !s.waiting || owner != s.activeSession || holder != s.activeDevice then s
      else SendFinal(s, long, startOk)
    case DeviceLost(long, startOk) => Lost(s, long, startOk)
    case DeviceForgotten(device) => if s.activeDevice == Some(device) then Dropped(s) else s
    case ConfigUpdated(subtitling) =>
      if subtitling || s.asrStarted || s.activeSession.Some? || s.pending.kind != Idle then Dropped(s) else s
    case AsrFinal(text) => FinalText(s, text)
    case AsrFailed => AsrError(s)
    case UpgradeOffered => Recover(s)
    case ErrorDismissed => Recover(s)
    case RestoreChosen => Restore(s, s.lastDevice)
    case CallbackFires(callback) => Commit(s, callback.text)
  }

  /** A callback fires late, repeatedly or never, but only after it was made. */
  predicate Possible(s: State, e: Event) {
    e.CallbackFires? ==> e.callback in s.callbacks
  }

  ghost predicate IsRun(s: State, events: seq<Event>)
    decreases events
  {
    events == [] || (Possible(s, events[0]) && IsRun(Step(s, events[0]), events[1..]))
  }

  function Run(s: State, events: seq<Event>): State
    decreases events
  {
    if events == [] then s else Run(Step(s, events[0]), events[1..])
  }
}
