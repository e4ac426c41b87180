/** What one dictation comes to: a long recording is recognized whole and pasted once, a short one is given up. */
module CoordinatorDictation {
  import opened Optional
  import opened Coordinator
  import opened CoordinatorRecording
  import opened CoordinatorPaste

  // ---- what the recognizer is told ----

  /** Chunks 0 to n - 1 of a recording, the final one marked last or none. */
  function Told(recording: nat, n: nat, marked: bool): seq<AsrCall> {
    seq(n, i requires 0 <= i < n => AsrChunk(recording, i, marked && i + 1 == n))
  }

  /** The calls of a recognition started for the recording that follows b. */
  function Recognition(b: State, n: nat, marked: bool): seq<AsrCall> {
    [AsrStart(|b.outputs|)] + Told(|b.outputs|, n, marked)
  }

  lemma {:induction false} ToldAppend(recording: nat, n: nat, marked: bool)
    ensures Told(recording, n, false) + [AsrChunk(recording, n, marked)] == Told(recording, n + 1, marked)
    ensures Flushed(recording, seq(n, i => i) + [n], marked) == Told(recording, n + 1, marked)
  {
  }

  lemma {:induction false} RecognitionAppend(b: State, n: nat, marked: bool)
    ensures b.asr + Recognition(b, n, false) + [AsrChunk(|b.outputs|, n, marked)]
         == b.asr + Recognition(b, n + 1, marked)
    ensures b.asr + [AsrStart(|b.outputs|)] + Flushed(|b.outputs|, seq(n, i => i) + [n], marked)
         == b.asr + Recognition(b, n + 1, marked)
  {
    ToldAppend(|b.outputs|, n, marked);
    hide Told, Flushed;
  }

  // ---- a recording from its press to its end ----

  /** No recording, confirmation or error keeps a press from starting a recording. */
  predicate Free(s: State) {
    s.session == Ready && s.activeDevice.None? && s.pending.kind == Idle
  }

  /** The recording after b: n frames have come, the recognizer runs or not, the button is released or not. */
  predicate Capturing(s: State, b: State, device: string, id: nat, n: nat, started: bool, released: bool) {
    && Captured(s, b, device, id, n, started) && s.session == (if released then Finalizing else Recording)
    && s.waiting == released && s.generation == b.generation + (if released then 1 else 0)
  }

  predicate Captured(s: State, b: State, device: string, id: nat, n: nat, started: bool) {
    && Recorded(s, device, id) && !s.sentFinal && !s.pastedFinal && !s.showingError
    && s.frames == n && s.outputs == b.outputs + [n] && s.stopped == b.stopped
    && s.asrStarted == started && s.buffered == (if started then [] else seq(n, i => i))
    && s.asr == b.asr + (if started then Recognition(b, n, false) else [])
    && s.lastDevice == b.lastDevice && DeskOf(s) == DeskOf(b).(pending := NOTHING)
  }

  function Frames(device: string, id: nat, longs: seq<bool>): seq<Event> {
    seq(|longs|, i requires 0 <= i < |longs| => AudioFrame(device, id, longs[i], true))
  }

  lemma {:induction false} PressBegins(b: State, device: string, id: nat)
    requires RecInv(b) && Free(b) && id != 0
    ensures Capturing(Step(b, PrimaryDown(Some(id), device)), b, device, id, 0, false, false)
  {
    LiveFacts(b);
    hide RecInv;
  }

  /** The muxer's next output goes to a recognizer that runs or is started, and is held back otherwise. */
  lemma {:induction false} OutputIsTaken(s: State, b: State, device: string, id: nat, n: nat, started: bool,
                                         m: State, isLast: bool, canStart: bool)
    requires Captured(s, b, device, id, n, started)
    requires m.asr == s.asr && m.buffered == s.buffered && m.asrStarted == s.asrStarted
    requires m.outputs == b.outputs + [n + 1]
    ensures SendOrBuffer(m, n, isLast, canStart, true)
         == m.(asrStarted := started || canStart,
               buffered := if started || canStart then [] else seq(n + 1, i => i),
               asr := b.asr + if started || canStart then Recognition(b, n + 1, isLast) else [])
  {
    RecognitionAppend(b, n, isLast);
    assert seq(n, i => i) + [n] == seq(n + 1, i => i);
    assert b.asr + [] == b.asr;
    hide Recognition, Flushed, DeskOf;
  }

  lemma {:induction false} FrameIsTaken(s: State, b: State, device: string, id: nat, n: nat, started: bool,
                                        released: bool, long: bool)
    requires Capturing(s, b, device, id, n, started, released)
    ensures Capturing(Step(s, AudioFrame(device, id, long, true)), b, device, id, n + 1,
                      started || (long && !released), released)
  {
    assert (b.outputs + [n])[|b.outputs| := n + 1] == b.outputs + [n + 1];
    assert s.outputs[Current(s)] == n;
    OutputIsTaken(s, b, device, id, n, started, Muxed(s).(frames := s.frames + 1), false, long && !released);
    hide Recognition, DeskOf, SendOrBuffer;
  }

  lemma {:induction false} FramesAreTaken(s: State, b: State, device: string, id: nat, n: nat, started: bool,
                                          released: bool, longs: seq<bool>)
    requires Capturing(s, b, device, id, n, started, released)
    ensures IsRun(s, Frames(device, id, longs))
    ensures Capturing(Run(s, Frames(device, id, longs)), b, device, id, n + |longs|,
                      started || (true in longs && !released), released)
    decreases longs
  {
    var events := Frames(device, id, longs);
    hide Capturing;
    if longs == [] {
      assert Capturing(s, b, device, id, n + 0, started || false, released);
    } else {
      FrameIsTaken(s, b, device, id, n, started, released, longs[0]);
      hide Step;
      var more := started || (longs[0] && !released);
      FramesAreTaken(Step(s, events[0]), b, device, id, n + 1, more, released, longs[1..]);
      assert events[1..] == Frames(device, id, longs[1..]);
      assert true in longs <==> longs[0] || true in longs[1..];
      assert more || (true in longs[1..] && !released) <==> started || (true in longs && !released);
    }
  }

  lemma {:induction false} LongReleaseWaits(s: State, b: State, device: string, id: nat, n: nat, started: bool)
    requires Capturing(s, b, device, id, n, started, false)
    ensures Capturing(Step(s, PrimaryUp(device, true)), b, device, id, n, started, true)
  {
    hide Recognition;
  }

  /** Frames of another session, anything of another device, and timeouts armed for another wait. */
  predicate IsForeign(s: State, e: Event, device: string, id: nat) {
    match e
    case PrimaryDown(_, d) => d != device
    case PrimaryUp(d, _) => d != device
    case PrimaryClick(_, _, d, _) => d != device
    case SecondaryClick(d) => d != device
    case DeviceForgotten(d) => d != device
    case AudioFrame(d, i, _, _) => d != device || i != id
    case EndFrame(d, i, _, _) => d != device || i != id
    case EndTimeout(scheduled, owner, holder, _, _) =>
      !s.waiting || scheduled != s.generation || owner != Some(id) || holder != Some(device)
    case _ => false
  }

  /** What is not this recording's does not disturb it. */
  lemma {:induction false} ForeignIsIgnored(s: State, b: State, device: string, id: nat, n: nat, started: bool,
                                            released: bool, e: Event)
    requires Capturing(s, b, device, id, n, started, released) && IsForeign(s, e, device, id)
    ensures Step(s, e) == s
  {
    hide Recognition;
    assert DeskOf(s).pending.kind == Idle;
  }

  /** In click mode a click is a press or a release, whichever is due, and nothing once the end is awaited; in
      hold mode it is nothing. */
  lemma {:induction false} ClicksAreButtons(b: State, s: State, device: string, id: nat, n: nat, started: bool,
                                            released: bool, offered: Option<nat>, long: bool)
    requires Free(b) && Capturing(s, b, device, id, n, started, released)
    ensures Step(b, PrimaryClick(ClickToTalk, offered, device, long)) == Step(b, PrimaryDown(offered, device))
    ensures Step(s, PrimaryClick(ClickToTalk, offered, device, long))
         == if released then s else Step(s, PrimaryUp(device, long))
    ensures Step(b, PrimaryClick(HoldToTalk, offered, device, long)) == b
    ensures Step(s, PrimaryClick(HoldToTalk, offered, device, long)) == s
  {
    hide Recognition;
    assert DeskOf(s).pending.kind == Idle;
  }

  // ---- its end ----

  /** What ends the wait for END. */
  datatype Ending = Arrives | TimesOut | DeviceGoes

  /** END itself, the timeout armed at the release, or the loss of the device. */
  function EndEvent(b: State, device: string, id: nat, ending: Ending): Event {
    match ending
    case Arrives => EndFrame(device, id, true, true)
    case TimesOut => EndTimeout(b.generation + 1, Some(id), Some(device), true, true)
    case DeviceGoes => DeviceLost(true, true)
  }

  /** The recording after b is over: it was recognized from its first chunk to its last, in one go. */
  predicate Closed(s: State, b: State, device: string, n: nat) {
    && s.activeSession.None? && s.activeDevice == Some(device) && s.session == Finalizing
    && s.sentFinal && !s.pastedFinal && !s.waiting && !s.showingError && s.asrStarted
    && s.outputs == b.outputs + [n + 1] && s.stopped == b.stopped
    && s.asr == b.asr + Recognition(b, n + 1, true)
    && DeskOf(s) == DeskOf(b).(pending := NOTHING)
  }

  lemma {:induction false} EndCompletes(s: State, b: State, device: string, id: nat, n: nat, started: bool,
                                        ending: Ending)
    requires Capturing(s, b, device, id, n, started, true) && n > 0
    ensures Closed(Step(s, EndEvent(b, device, id, ending)), b, device, n)
  {
    if ending.Arrives? {
      FinalIsTaken(CancelTimeout(s), b, device, id, n, started);
    } else {
      FinalIsTaken(s, b, device, id, n, started);
    }
    hide Recognition, DeskOf, SendFinal, Closed;
  }

  lemma {:induction false} FinalIsTaken(s: State, b: State, device: string, id: nat, n: nat, started: bool)
    requires Captured(s, b, device, id, n, started) && n > 0
    ensures Closed(SendFinal(s, true, true), b, device, n)
  {
    assert (b.outputs + [n])[|b.outputs| := n + 1] == b.outputs + [n + 1];
    assert s.outputs[Current(s)] == n;
    var m := Muxed(CancelTimeout(s.(sentFinal := true))).(activeSession := None);
    OutputIsTaken(s, b, device, id, n, started, m, true, true);
    hide Recognition, DeskOf, SendOrBuffer;
  }

  /** What the recognizer has of the recording after b. */
  lemma {:induction false} RecognitionChunks(b: State, n: nat, marked: bool)
    requires RecInv(b)
    ensures Chunks(b.asr, |b.outputs|) == []
    ensures Chunks(b.asr + Recognition(b, n, marked), |b.outputs|) == Told(|b.outputs|, n, marked)
  {
    var r := |b.outputs|;
    var told := Told(r, n, marked);
    ChunksAppend(b.asr, AsrStart(r), r);
    ChunksOfFlush(b.asr + [AsrStart(r)], told, r, r);
    assert Chunks(b.asr, r) == [];
    hide RecInv, Chunks, Told;
    assert b.asr + [AsrStart(r)] + told == b.asr + Recognition(b, n, marked);
    assert [] + told == told;
  }

  lemma {:induction false} ClosedIsComplete(s: State, b: State, device: string, n: nat)
    requires RecInv(b) && Closed(s, b, device, n)
    ensures Complete(s, |b.outputs|)
  {
    RecognitionChunks(b, n + 1, true);
    hide RecInv, Chunks;
  }

  // ---- the two releases ----

  lemma {:induction false} RunOfOne(s: State, e: Event)
    requires !e.CallbackFires?
    ensures IsRun(s, [e]) && Run(s, [e]) == Step(s, e)
  {
    RunCons(s, e, []);
    hide Step;
    assert [e] + [] == [e];
  }

  lemma {:induction false} RunThenOne(s: State, events: seq<Event>, e: Event)
    requires IsRun(s, events) && Possible(Run(s, events), e)
    ensures IsRun(s, events + [e]) && Run(s, events + [e]) == Step(Run(s, events), e)
  {
    RunCons(Run(s, events), e, []);
    hide Step, Possible;
    assert [e] + [] == [e];
    assert IsRun(Run(s, events), [e]);
    RunOfTwoParts(s, events, [e]);
    hide IsRun, Run;
  }

  function Pressed(device: string, id: nat, front: seq<bool>): seq<Event> {
    [PrimaryDown(Some(id), device)] + Frames(device, id, front)
  }

  /** Press, frames, a release after half a second, the frames that were still under way, and the end. */
  function LongRecording(b: State, device: string, id: nat, front: seq<bool>, back: seq<bool>, ending: Ending): seq<Event>
  {
    Pressed(device, id, front) + [PrimaryUp(device, true)] + Frames(device, id, back)
      + [EndEvent(b, device, id, ending)]
  }

  lemma {:induction false} PressedCaptures(b: State, device: string, id: nat, front: seq<bool>)
    requires RecInv(b) && Free(b) && id != 0
    ensures IsRun(b, Pressed(device, id, front))
    ensures Capturing(Run(b, Pressed(device, id, front)), b, device, id, |front|, true in front, false)
  {
    var down := PrimaryDown(Some(id), device);
    PressBegins(b, device, id);
    RunOfOne(b, down);
    hide Step, Capturing, RecInv;
    FramesAreTaken(Step(b, down), b, device, id, 0, false, false, front);
    hide Run, IsRun;
    RunOfTwoParts(b, [down], Frames(device, id, front));
    var held := Run(b, Pressed(device, id, front));
    assert Capturing(held, b, device, id, 0 + |front|, false || (true in front && !false), false);
  }

  /** From any state a press can start a recording in, for any device and session, whatever frames come
      before the release and after it: the recognizer is started once, gets all of the muxer's output in
      order, the last chunk marked, and is not cancelled. */
  lemma {:induction false} LongRecordingIsRecognized(b: State, device: string, id: nat, front: seq<bool>,
                                                     back: seq<bool>, ending: Ending)
    requires RecInv(b) && Free(b) && id != 0 && |front| + |back| > 0
    ensures var events := LongRecording(b, device, id, front, back, ending);
      && IsRun(b, events)
      && Closed(Run(b, events), b, device, |front| + |back|)
      && Complete(Run(b, events), |b.outputs|)
  {
    hide Step, Capturing, RecInv, Closed;
    var up, end := PrimaryUp(device, true), EndEvent(b, device, id, ending);
    var pressed, late := Pressed(device, id, front), Frames(device, id, back);
    PressedCaptures(b, device, id, front);
    var held := Run(b, pressed);
    RunThenOne(b, pressed, up);
    LongReleaseWaits(held, b, device, id, |front|, true in front);
    FramesAreTaken(Step(held, up), b, device, id, |front|, true in front, true, back);
    hide Run, IsRun;
    RunOfTwoParts(b, pressed + [up], late);
    var waiting := Run(b, pressed + [up] + late);
    EndCompletes(waiting, b, device, id, |front| + |back|, true in front || (true in back && !true), ending);
    RunThenOne(b, pressed + [up] + late, end);
    ClosedIsComplete(Step(waiting, end), b, device, |front| + |back|);
  }

  /** The recording after b was given up: what the recognizer had got was cancelled, and nothing is pending. */
  predicate Abandoned(s: State, b: State, n: nat, started: bool) {
    && Free(s) && s.activeSession.None?
    && s.outputs == b.outputs + [n] && s.stopped == b.stopped + {|b.outputs|}
    && s.asr == b.asr + (if started then Recognition(b, n, false) else []) + [AsrCancel]
    && DeskOf(s) == DeskOf(b).(pending := NOTHING)
  }

  /** What gives a recording up: a release within half a second, the side button, new settings, or the device
      being forgotten, or lost before the release. */
  predicate GivesUp(e: Event, device: string, released: bool) {
    || (e == PrimaryUp(device, false))
    || (e == SecondaryClick(device))
    || (e.ConfigUpdated?)
    || (e == DeviceForgotten(device))
    || (e.DeviceLost? && !released)
  }

  lemma {:induction false} GivingUpAbandons(s: State, b: State, device: string, id: nat, n: nat, started: bool,
                                            released: bool, e: Event)
    requires Capturing(s, b, device, id, n, started, released) && GivesUp(e, device, released)
    ensures Abandoned(Step(s, e), b, n, started)
  {
    assert Current(s) == |b.outputs|;
    hide Recognition;
  }

  /** A recording given up before its release: the END that follows changes nothing, and the next press
      starts a recording again. */
  lemma {:induction false} ShortRecordingIsGivenUp(b: State, device: string, id: nat, front: seq<bool>, e: Event,
                                                   late: Event)
    requires RecInv(b) && Free(b) && id != 0 && GivesUp(e, device, false)
    requires late.EndFrame? || late.AudioFrame? || late.EndTimeout?
    ensures var events := Pressed(device, id, front) + [e];
      && IsRun(b, events)
      && Abandoned(Run(b, events), b, |front|, true in front)
      && Unfinished(Run(b, events), |b.outputs|) && |b.outputs| in Run(b, events).stopped
      && Step(Run(b, events), late) == Run(b, events)
  {
    PressedCaptures(b, device, id, front);
    var held := Run(b, Pressed(device, id, front));
    RunThenOne(b, Pressed(device, id, front), e);
    hide Run, IsRun;
    GivingUpAbandons(held, b, device, id, |front|, true in front, false, e);
    var t := Step(held, e);
    AbandonedIsUnfinished(t, b, |front|, true in front);
    LateIsIgnored(t, late);
    hide Step, Capturing, RecInv, Complete, Unfinished;
  }

  lemma {:induction false} LateIsIgnored(s: State, late: Event)
    requires Free(s) && s.activeSession.None?
    requires late.EndFrame? || late.AudioFrame? || (late.EndTimeout? && !s.waiting)
    ensures Step(s, late) == s
  {
  }

  lemma {:induction false} AbandonedIsUnfinished(s: State, b: State, n: nat, started: bool)
    requires RecInv(b) && Abandoned(s, b, n, started)
    ensures Unfinished(s, |b.outputs|)
  {
    var r := |b.outputs|;
    var told := b.asr + if started then Recognition(b, n, false) else [];
    RecognitionChunks(b, n, false);
    assert b.asr + [] == b.asr;
    ChunksAppend(told, AsrCancel, r);
    hide RecInv, Chunks, Recognition;
    assert IsPrefix(Chunks(s.asr, r), r, if started then n else 0, false);
  }

  /** A recording whose text is awaited can still be given up: by the side button, by new settings, or with
      its device. A failing recognizer shows its error. */
  lemma {:induction false} AwaitedTextIsGivenUp(s: State, b: State, device: string, n: nat, e: Event)
    requires Closed(s, b, device, n)
    requires e == SecondaryClick(device) || e == DeviceForgotten(device) || e.DeviceLost? || e.ConfigUpdated?
             || e.AsrFailed?
    ensures var t := Step(s, e);
      && t.asr == s.asr + [AsrCancel] && t.stopped == s.stopped + {|b.outputs|}
      && DeskOf(t) == DeskOf(s) && t.activeSession.None?
      && (if e.AsrFailed? then t.session == Error && t.showingError else Free(t))
  {
    hide Recognition;
  }

  // ---- the recognizer's refusal ----

  /** The recording after b ended with an error on show. */
  predicate Refused(s: State, b: State, outputs: nat) {
    && s.showingError && s.activeSession.None? && s.outputs == b.outputs + [outputs]
    && s.asr == b.asr + [AsrCancel] && s.stopped == b.stopped + {|b.outputs|}
    && DeskOf(s) == DeskOf(b).(pending := NOTHING)
  }

  /** A frame that should start the recognizer, which would not: the error is shown. */
  lemma {:induction false} RefusalShowsError(s: State, b: State, device: string, id: nat, n: nat)
    requires Capturing(s, b, device, id, n, false, false)
    ensures var t := Step(s, AudioFrame(device, id, true, false));
      Refused(t, b, n + 1) && t.session == Error
  {
    OutputOfRefusal(s, b, n);
    assert Current(s) == |b.outputs|;
    hide DeskOf;
    var t := Step(s, AudioFrame(device, id, true, false));
    assert DeskOf(t) == DeskOf(s).(pending := NOTHING);
  }

  /** Dismissing the error, or following its upgrade offer, leaves the program ready for the next press. */
  lemma {:induction false} DismissalFrees(s: State, b: State, outputs: nat, e: Event)
    requires Refused(s, b, outputs) && (e.ErrorDismissed? || e.UpgradeOffered?)
    ensures Free(Step(s, e)) && !Step(s, e).showingError && Step(s, e).asr == s.asr
  {
  }

  lemma {:induction false} OutputOfRefusal(s: State, b: State, n: nat)
    requires s.outputs == b.outputs + [n] && s.asr == b.asr + []
    ensures s.outputs[Current(s)] == n && s.outputs[Current(s) := n + 1] == b.outputs + [n + 1] && s.asr == b.asr
  {
  }

  /** END without a frame, or with a recognizer that will not start: the error is shown in either case, in
      the second one behind Finalizing. */
  lemma {:induction false} EndShowsError(s: State, b: State, device: string, id: nat, n: nat, released: bool)
    requires Capturing(s, b, device, id, n, false, released)
    ensures var t := Step(s, EndFrame(device, id, true, false));
      if n == 0 then Refused(t, b, 0) && t.session == Error
      else Refused(t, b, n + 1) && t.session == Finalizing
  {
    OutputOfRefusal(s, b, n);
    assert Current(s) == |b.outputs|;
    hide DeskOf;
    var t := Step(s, EndFrame(device, id, true, false));
    assert DeskOf(t) == DeskOf(s).(pending := NOTHING);
  }

  // ---- the confirmation ----

  /** The text recognized after b waits to be pasted. */
  predicate Confirming(s: State, b: State, device: string, text: string) {
    && s.session == PendingConfirmation && s.activeSession.None? && s.activeDevice == Some(device)
    && !s.waiting && s.pastedFinal && s.lastDevice == Some(device)
    && DeskOf(s) == Desk(Pending(WaitingToPaste, text), Some(text), b.texts + [text],
                         b.callbacks + [Callback(text, |b.texts|)], b.pastes)
  }

  lemma {:induction false} TextIsConfirmed(s: State, b: State, device: string, n: nat, text: string)
    requires Closed(s, b, device, n) && text != ""
    ensures Confirming(Step(s, AsrFinal(text)), b, device, text)
  {
    hide Recognition;
  }

  /** The countdown's callback pastes the text once and leaves the program ready; fired again, it does nothing. */
  lemma {:induction false} CountdownPastes(s: State, b: State, device: string, text: string)
    requires Confirming(s, b, device, text) && text != ""
    ensures var fires := CallbackFires(Callback(text, |b.texts|)); var t := Step(s, fires);
      && Possible(s, fires) && Free(t) && t.pastes == b.pastes + [Paste(text, |b.texts|)]
      && DeskOf(t) == DeskOf(s).(pending := NOTHING, pastes := t.pastes) && t.asr == s.asr && Step(t, fires) == t
  {
    assert s.callbacks == DeskOf(s).callbacks && s.texts == DeskOf(s).texts && s.pastes == DeskOf(s).pastes;
  }

  /** The front button of the same device pauses the confirmation; pressed again, it has it pasted. */
  lemma {:induction false} FrontButtonPausesThenPastes(s: State, b: State, device: string, text: string,
                                                       first: Option<nat>, second: Option<nat>)
    requires Confirming(s, b, device, text) && text != ""
    ensures var paused := Step(s, PrimaryDown(first, device)); var agreed := Step(paused, PrimaryDown(second, device));
      && paused.session == PausedConfirmation && paused.pending == Pending(Paused, text)
      && paused.callbacks == s.callbacks && paused.pastes == agreed.pastes == b.pastes
      && agreed.callbacks == s.callbacks + [Callback(text, |b.texts|)]
      && var t := Step(agreed, CallbackFires(Callback(text, |b.texts|)));
         Free(t) && t.pastes == b.pastes + [Paste(text, |b.texts|)]
  {
    assert s.callbacks == DeskOf(s).callbacks && s.texts == DeskOf(s).texts && s.pastes == DeskOf(s).pastes;
  }

  /** The side button of the same device drops the confirmation: the countdown then pastes nothing, and the
      menu brings the text back, paused. */
  lemma {:induction false} SideButtonDiscards(s: State, b: State, device: string, text: string)
    requires Confirming(s, b, device, text) && text != ""
    ensures var t := Step(s, SecondaryClick(device));
      && Free(t) && t.pastes == b.pastes
      && Step(t, CallbackFires(Callback(text, |b.texts|))) == t
      && var r := Step(t, RestoreChosen);
         r.session == PausedConfirmation && r.pending == Pending(Paused, text) && r.activeDevice == Some(device)
  {
    assert s.texts == DeskOf(s).texts && s.pastes == DeskOf(s).pastes;
  }

  /** Another device's buttons and audio change nothing. */
  lemma {:induction false} OtherDevicesAreIgnored(s: State, b: State, device: string, text: string, e: Event)
    requires Confirming(s, b, device, text) && text != ""
    requires e.PrimaryDown? || e.PrimaryUp? || e.PrimaryClick? || e.SecondaryClick? || e.AudioFrame? || e.EndFrame?
             || e.DeviceForgotten?
    requires e.device != device
    ensures Step(s, e) == s
  {
  }

  // ---- dictation after dictation ----

  datatype Dictation = Dictation(device: string, id: nat, front: seq<bool>, back: seq<bool>, ending: Ending,
                                 text: string)

  predicate Proper(d: Dictation) {
    d.id != 0 && |d.front| + |d.back| > 0
  }

  function RecordingOf(b: State, d: Dictation): seq<Event> {
    LongRecording(b, d.device, d.id, d.front, d.back, d.ending)
  }

  /** The recording, its text, and the countdown of a text that is not empty. */
  function Dictated(b: State, d: Dictation): seq<Event> {
    RecordingOf(b, d) + [AsrFinal(d.text)] + if d.text == "" then [] else [CallbackFires(Callback(d.text, |b.texts|))]
  }

  lemma {:induction false} DictationIsPasted(b: State, d: Dictation)
    requires RecInv(b) && Free(b) && Proper(d)
    ensures var events := Dictated(b, d); var t := Run(b, events);
      && IsRun(b, events) && Free(t)
      && t.asr == b.asr + Recognition(b, |d.front| + |d.back| + 1, true)
      && t.pastes == b.pastes + if d.text == "" then [] else [Paste(d.text, |b.texts|)]
  {
    var recording, n := RecordingOf(b, d), |d.front| + |d.back|;
    LongRecordingIsRecognized(b, d.device, d.id, d.front, d.back, d.ending);
    var closed := Run(b, recording);
    RunThenOne(b, recording, AsrFinal(d.text));
    var heard := Step(closed, AsrFinal(d.text));
    hide Run, IsRun, RecInv, Recognition, LongRecording, Complete;
    assert b.pastes == DeskOf(b).pastes == DeskOf(closed).pastes;
    if d.text == "" {
      assert Dictated(b, d) == recording + [AsrFinal(d.text)];
      assert b.pastes + [] == b.pastes;
    } else {
      TextIsConfirmed(closed, b, d.device, n, d.text);
      CountdownPastes(heard, b, d.device, d.text);
      hide Step;
      RunThenOne(b, recording + [AsrFinal(d.text)], CallbackFires(Callback(d.text, |b.texts|)));
    }
  }

  function AllDictated(b: State, ds: seq<Dictation>): seq<Event>
    decreases ds
  {
    if ds == [] then [] else Dictated(b, ds[0]) + AllDictated(Run(b, Dictated(b, ds[0])), ds[1..])
  }

  /** The texts that are not empty. */
  function Spoken(ds: seq<Dictation>): seq<string> {
    if ds == [] then [] else (if ds[0].text == "" then [] else [ds[0].text]) + Spoken(ds[1..])
  }

  function Pasted(pastes: seq<Paste>): seq<string> {
    seq(|pastes|, i requires 0 <= i < |pastes| => pastes[i].text)
  }

  lemma {:induction false} PastedAppend(before: seq<Paste>, text: string, confirmation: nat, rest: seq<string>)
    ensures Pasted(before + [Paste(text, confirmation)]) + rest == Pasted(before) + ([text] + rest)
    ensures Pasted(before + []) + rest == Pasted(before) + ([] + rest)
  {
    assert Pasted(before + [Paste(text, confirmation)]) == Pasted(before) + [text];
    assert before + [] == before && [] + rest == rest;
  }

  lemma {:induction false} AllArePasted(b: State, ds: seq<Dictation>)
    requires RecInv(b) && PasteInv(DeskOf(b)) && Free(b)
    requires forall k :: 0 <= k < |ds| ==> Proper(ds[k])
    ensures IsRun(b, AllDictated(b, ds)) && Free(Run(b, AllDictated(b, ds)))
    ensures Pasted(Run(b, AllDictated(b, ds)).pastes) == Pasted(b.pastes) + Spoken(ds)
    decreases ds
  {
    if ds == [] {
      assert Pasted(b.pastes) + [] == Pasted(b.pastes);
    } else {
      hide Step, Possible, RecInv, PasteInv, DeskOf, Dictated, Free, Proper, Pasted, Recognition;
      var first := Dictated(b, ds[0]);
      DictationIsPasted(b, ds[0]);
      RunKeeps(b, first);
      var t := Run(b, first);
      hide Run, IsRun;
      assert forall k :: 0 <= k < |ds[1..]| ==> ds[1..][k] == ds[k + 1];
      AllArePasted(t, ds[1..]);
      RunOfTwoParts(b, first, AllDictated(t, ds[1..]));
      PastedAppend(b.pastes, ds[0].text, |b.texts|, Spoken(ds[1..]));
    }
  }

  /** After any run that leaves the program ready, one dictation after the other, from whatever devices, with
      whatever frames and endings: exactly the texts that were recognized are pasted, each once, in order. */
  lemma {:induction false} EveryDictationIsPasted(before: seq<Event>, ds: seq<Dictation>)
    requires IsRun(Fresh(), before) && Free(Run(Fresh(), before))
    requires forall k :: 0 <= k < |ds| ==> Proper(ds[k])
    ensures var b := Run(Fresh(), before); var events := AllDictated(b, ds);
      && IsRun(b, events) && Free(Run(b, events))
      && Pasted(Run(b, events).pastes) == Pasted(b.pastes) + Spoken(ds)
  {
    RunKeeps(Fresh(), before);
    hide Run, IsRun, RecInv, PasteInv, Free, Proper;
    AllArePasted(Run(Fresh(), before), ds);
  }
}
