/** Paste safety, and the main results over whole runs of the coordinator. */
module CoordinatorPaste {
  import opened Optional
  import opened Coordinator
  import opened CoordinatorRecording

  /** What pasting depends on. */
  datatype Desk = Desk(pending: Pending, lastText: Option<string>, texts: seq<string>, callbacks: seq<Callback>,
                       pastes: seq<Paste>)

  function DeskOf(s: State): Desk {
    Desk(s.pending, s.lastText, s.texts, s.callbacks, s.pastes)
  }

  /** Something is pending exactly when it has a text; it is the latest confirmation and not yet pasted;
      pasted texts are those of their confirmations, in order, none twice. */
  ghost predicate PasteInv(d: Desk) {
    && (d.pending.kind == Idle <==> d.pending.text == "")
    && (d.pending.kind != Idle ==> d.texts != [] && d.pending.text == d.texts[|d.texts| - 1])
    && (forall i :: 0 <= i < |d.texts| ==> d.texts[i] != "")
    && (d.lastText.Some? ==> d.lastText.value != "")
    && (forall i :: 0 <= i < |d.callbacks| ==>
          d.callbacks[i].confirmation < |d.texts| && d.callbacks[i].text == d.texts[d.callbacks[i].confirmation])
    && (forall i :: 0 <= i < |d.pastes| ==>
          d.pastes[i].confirmation < |d.texts| && d.pastes[i].text == d.texts[d.pastes[i].confirmation])
    && (forall i, j :: 0 <= i < j < |d.pastes| ==> d.pastes[i].confirmation < d.pastes[j].confirmation)
    && (d.pending.kind != Idle ==>
          forall i :: 0 <= i < |d.pastes| ==> d.pastes[i].confirmation < |d.texts| - 1)
  }

  /** A step that confirms, pauses and commits nothing. */
  predicate Quiet(d: Desk, e: Desk) {
    e == d || e == d.(pending := NOTHING)
  }

  lemma {:induction false} QuietKeeps(d: Desk, e: Desk)
    requires PasteInv(d) && Quiet(d, e)
    ensures PasteInv(e)
  {
  }

  lemma {:induction false} ConfirmKeeps(d: Desk, text: string)
    requires PasteInv(d) && text != ""
    ensures PasteInv(Desk(Pending(WaitingToPaste, text), Some(text), d.texts + [text],
                          d.callbacks + [Callback(text, |d.texts|)], d.pastes))
  {
  }

  lemma {:induction false} RestoredKeeps(d: Desk)
    requires PasteInv(d) && d.lastText.Some?
    ensures PasteInv(Desk(Pending(Paused, d.lastText.value), d.lastText, d.texts + [d.lastText.value],
                          d.callbacks, d.pastes))
  {
  }

  lemma {:induction false} PausedKeeps(d: Desk)
    requires PasteInv(d) && d.pending.kind != Idle
    ensures PasteInv(d.(pending := Pending(Paused, d.pending.text)))
    ensures d.texts != [] && PasteInv(d.(callbacks := d.callbacks + [Callback(d.pending.text, |d.texts| - 1)]))
  {
  }

  // ---- handlers ----

  lemma {:induction false} FinalTextKeepsPaste(s: State, text: string)
    requires PasteInv(DeskOf(s))
    ensures PasteInv(DeskOf(FinalText(s, text)))
  {
    hide PasteInv;
    if s.pastedFinal {
    } else if text == "" {
      QuietKeeps(DeskOf(s), DeskOf(FinalText(s, text)));
    } else {
      ConfirmKeeps(DeskOf(s), text);
    }
  }

  lemma {:induction false} RestoreKeepsPaste(s: State, device: Option<string>)
    requires PasteInv(DeskOf(s))
    ensures PasteInv(DeskOf(Restore(s, device)))
  {
    hide PasteInv;
    if s.lastText.Some? {
      RestoredKeeps(DeskOf(s));
    }
  }

  lemma {:induction false} FrontButtonKeeps(s: State, device: string)
    requires PasteInv(DeskOf(s)) && s.pending.kind != Idle
    ensures PasteInv(DeskOf(FrontButton(s, device)))
  {
    hide PasteInv;
    PausedKeeps(DeskOf(s));
  }

  lemma {:induction false} CommitKeepsPaste(s: State, text: string)
    requires PasteInv(DeskOf(s)) && text != ""
    ensures PasteInv(DeskOf(Commit(s, text)))
  {
    if s.pending.text == text {
      assert s.pending.kind != Idle;
      hide PasteInv;
    }
  }

  lemma {:induction false} DroppedIsQuiet(s: State)
    ensures DeskOf(Dropped(s)) == DeskOf(s).(pending := NOTHING)
  {
  }

  lemma {:induction false} CancelRecognitionIsQuiet(s: State)
    ensures DeskOf(CancelRecognition(s)) == DeskOf(s).(pending := NOTHING)
  {
    DroppedIsQuiet(CancelTimeout(s));
    hide Dropped;
  }

  lemma {:induction false} AsrErrorIsQuiet(s: State)
    ensures DeskOf(AsrError(s)) == DeskOf(s).(pending := NOTHING)
  {
  }

  lemma {:induction false} ShortIsQuiet(s: State)
    ensures DeskOf(ShortRecording(s)) == DeskOf(s)
  {
  }

  lemma {:induction false} ChunksAreQuiet(s: State, chunk: nat, isLast: bool, canStart: bool, startOk: bool)
    ensures Quiet(DeskOf(s), DeskOf(SendOrBuffer(s, chunk, isLast, canStart, startOk)))
  {
    var refused := s.(buffered := s.buffered + [chunk]).(buffered := []);
    AsrErrorIsQuiet(refused);
    assert DeskOf(refused) == DeskOf(s);
    hide AsrError;
  }

  lemma {:induction false} SendFinalIsQuiet(s: State, long: bool, startOk: bool)
    ensures Quiet(DeskOf(s), DeskOf(SendFinal(s, long, startOk)))
  {
    var closing := CancelTimeout(s.(sentFinal := true));
    ShortIsQuiet(closing);
    AsrErrorIsQuiet(closing.(activeSession := None));
    ChunksAreQuiet(Muxed(closing).(activeSession := None), NextChunk(s), true, true, startOk);
    hide SendOrBuffer, AsrError, ShortRecording;
  }

  lemma {:induction false} DownKeepsPaste(s: State, offered: Option<nat>, device: string)
    requires PasteInv(DeskOf(s))
    ensures PasteInv(DeskOf(Down(s, offered, device)))
  {
    if s.pending.kind != Idle {
      FrontButtonKeeps(s, device);
    } else {
      hide PasteInv;
      QuietKeeps(DeskOf(s), DeskOf(Down(s, offered, device)));
    }
  }

  lemma {:induction false} UpIsQuiet(s: State, device: string, long: bool)
    ensures Quiet(DeskOf(s), DeskOf(Up(s, device, long)))
  {
    ShortIsQuiet(s);
    hide ShortRecording;
  }

  lemma {:induction false} CancelledKeepsPaste(s: State, device: string)
    requires PasteInv(DeskOf(s))
    ensures PasteInv(DeskOf(Cancelled(s, device)))
  {
    hide PasteInv, Restore, CancelRecognition;
    RestoreKeepsPaste(s, Some(device));
    CancelRecognitionIsQuiet(s);
    QuietKeeps(DeskOf(s), DeskOf(CancelRecognition(s)));
    QuietKeeps(DeskOf(s), DeskOf(s).(pending := NOTHING));
  }

  lemma {:induction false} ClickKeepsPaste(s: State, e: Event)
    requires PasteInv(DeskOf(s)) && e.PrimaryClick?
    ensures PasteInv(DeskOf(Step(s, e)))
  {
    DownKeepsPaste(s, e.offered, e.device);
    UpIsQuiet(s, e.device, e.long);
    QuietKeeps(DeskOf(s), DeskOf(Up(s, e.device, e.long)));
    assert s.pending.kind != Idle ==> Down(s, e.offered, e.device) == FrontButton(s, e.device);
    hide PasteInv, Down, Up, FrontButton;
  }

  /** The steps of the recording itself. */
  lemma {:induction false} RecordingIsQuiet(s: State, e: Event)
    requires e.AudioFrame? || e.EndFrame? || e.EndTimeout? || e.DeviceLost? || e.DeviceForgotten? || e.ConfigUpdated?
             || e.AsrFailed? || e.UpgradeOffered? || e.ErrorDismissed?
    ensures Quiet(DeskOf(s), DeskOf(Step(s, e)))
  {
    hide SendFinal, SendOrBuffer, Dropped, AsrError, DeskOf;
    match e {
      case AudioFrame(_, _, long, startOk) => AudioIsQuiet(s, long && !s.waiting, startOk);
      case EndFrame(_, _, long, startOk) => EndIsQuiet(s, long, startOk);
      case EndTimeout(_, _, _, long, startOk) => SendFinalIsQuiet(s, long, startOk);
      case DeviceLost(long, startOk) =>
        SendFinalIsQuiet(s, long, startOk);
        DroppedIsQuiet(s);
      case DeviceForgotten(_) => DroppedIsQuiet(s);
      case ConfigUpdated(_) => DroppedIsQuiet(s);
      case AsrFailed => AsrErrorIsQuiet(s);
      case UpgradeOffered => RecoverIsQuiet(s);
      case ErrorDismissed => RecoverIsQuiet(s);
      case _ =>
    }
  }

  lemma {:induction false} RecoverIsQuiet(s: State)
    ensures DeskOf(Recover(s)) == DeskOf(s)
  {
  }

  lemma {:induction false} AudioIsQuiet(s: State, canStart: bool, startOk: bool)
    ensures Quiet(DeskOf(s), DeskOf(SendOrBuffer(Muxed(s).(frames := s.frames + 1), NextChunk(s), false, canStart, startOk)))
  {
    ChunksAreQuiet(Muxed(s).(frames := s.frames + 1), NextChunk(s), false, canStart, startOk);
    hide SendOrBuffer;
  }

  lemma {:induction false} EndIsQuiet(s: State, long: bool, startOk: bool)
    ensures Quiet(DeskOf(s), DeskOf(SendFinal(CancelTimeout(s), long, startOk)))
  {
    SendFinalIsQuiet(CancelTimeout(s), long, startOk);
    hide SendFinal;
  }

  lemma {:induction false} StepKeepsPaste(s: State, e: Event)
    requires PasteInv(DeskOf(s)) && Possible(s, e)
    ensures PasteInv(DeskOf(Step(s, e)))
  {
    assert e.CallbackFires? ==> e.callback.text != "" by {
      if e.CallbackFires? {
        assert e.callback in DeskOf(s).callbacks;
      }
    }
    hide PasteInv, Down, Up, Cancelled, FinalText, Commit, Restore, DeskOf, Quiet;
    match e {
      case PrimaryDown(offered, device) => DownKeepsPaste(s, offered, device);
      case PrimaryUp(device, long) =>
        UpIsQuiet(s, device, long);
        QuietKeeps(DeskOf(s), DeskOf(Up(s, device, long)));
      case PrimaryClick(_, _, _, _) => ClickKeepsPaste(s, e);
      case SecondaryClick(device) => CancelledKeepsPaste(s, device);
      case AsrFinal(text) => FinalTextKeepsPaste(s, text);
      case RestoreChosen => RestoreKeepsPaste(s, s.lastDevice);
      case CallbackFires(callback) => CommitKeepsPaste(s, callback.text);
      case _ =>
        RecordingIsQuiet(s, e);
        QuietKeeps(DeskOf(s), DeskOf(Step(s, e)));
    }
  }

  lemma {:induction false} RunKeeps(s: State, events: seq<Event>)
    requires RecInv(s) && PasteInv(DeskOf(s)) && IsRun(s, events)
    ensures RecInv(Run(s, events)) && PasteInv(DeskOf(Run(s, events)))
    decreases events
  {
    if events != [] {
      var e := events[0];
      assert e.CallbackFires? ==> (s.pending.text == e.callback.text ==> s.pending.kind != Idle);
      StepKeepsPaste(s, e);
      hide RecInv, PasteInv, Step;
      CoordinatorRecording.StepKeeps(s, e);
      RunKeeps(Step(s, e), events[1..]);
    }
  }

  // ---- main results ----

  /** Over every run and for every recording: the recognizer was given the muxer's outputs in order from
      the first, without gap or repetition. Once the recording is over, either that was all of them with
      exactly the final one marked last, or none was marked last and the recognizer had been cancelled or
      had already delivered its text. */
  lemma {:induction false} ChunksInOrder(events: seq<Event>, recording: nat)
    requires IsRun(Fresh(), events) && recording < |Run(Fresh(), events).outputs|
    ensures var s := Run(Fresh(), events);
      && (Complete(s, recording) || Unfinished(s, recording))
      && (recording < |s.outputs| - 1 || s.activeSession.None? ==> Settled(s, recording))
  {
    RunKeeps(Fresh(), events);
    var s := Run(Fresh(), events);
    hide Run, IsRun, PasteInv;
    if Live(s) && recording == Current(s) {
      LatestWouldSettle(s);
    } else {
      hide LiveInv;
      assert Settled(s, recording);
    }
  }

  /** Over every run: each confirmation is pasted at most once, with its own text. */
  lemma {:induction false} PastedOnce(events: seq<Event>)
    requires IsRun(Fresh(), events)
    ensures var s := Run(Fresh(), events);
      && (forall i :: 0 <= i < |s.pastes| ==>
            s.pastes[i].confirmation < |s.texts| && s.pastes[i].text == s.texts[s.pastes[i].confirmation])
      && (forall i, j :: 0 <= i < j < |s.pastes| ==> s.pastes[i].confirmation != s.pastes[j].confirmation)
  {
    RunKeeps(Fresh(), events);
    hide Run, IsRun, RecInv;
  }

  /** What an overlay callback does when it fires: it pastes if and only if something is pending whose text
      equals its own, and then it pastes that pending confirmation. */
  ghost predicate PastesIffEqual(s: State, callback: Callback) {
    var t := Step(s, CallbackFires(callback));
    && (s.pending.kind == Idle ==> t.pastes == s.pastes)
    && (t.pastes != s.pastes <==> s.pending.kind != Idle && s.pending.text == callback.text)
    && (t.pastes != s.pastes ==>
          && s.texts != [] && t.pastes == s.pastes + [Paste(s.pending.text, |s.texts| - 1)]
          && t.pending == NOTHING && t.session == Ready)
  }

  /** On every run, whichever confirmation a callback was made for and whenever it fires, in time, late or
      again: a stale callback is harmless exactly while the texts differ, and it does not respect a pause. */
  lemma {:induction false} StaleCallbackPastesIff(events: seq<Event>, callback: Callback)
    requires IsRun(Fresh(), events) && callback in Run(Fresh(), events).callbacks
    ensures PastesIffEqual(Run(Fresh(), events), callback)
  {
    RunKeeps(Fresh(), events);
    hide Run, IsRun, RecInv, PasteInv, PastesIffEqual;
    CallbackPastesIff(Run(Fresh(), events), callback);
  }

  lemma {:induction false} CallbackPastesIff(s: State, callback: Callback)
    requires PasteInv(DeskOf(s)) && callback in s.callbacks
    ensures PastesIffEqual(s, callback)
  {
    assert callback in DeskOf(s).callbacks && callback.text != "";
    assert s.pending.kind != Idle ==> s.texts != [];
    assert s.pending.kind == Idle ==> s.pending.text == "";
    hide PasteInv;
    hide Commit;
  }

  /** The run behind that: a recording is made and recognized, its text waits to be pasted, is cancelled with
      the side button, and is restored from the menu, paused. The first countdown's callback then pastes the
      paused confirmation. */
  lemma {:induction false} PausedPasteByStaleCallback()
    ensures var events := [PrimaryDown(Some(1), "A"), AudioFrame("A", 1, true, true), EndFrame("A", 1, true, true),
                           AsrFinal("ok"), SecondaryClick("A"), RestoreChosen];
      && IsRun(Fresh(), events)
      && var s := Run(Fresh(), events);
         && AsrStart(0) in s.asr
         && s.pending == Pending(Paused, "ok")
         && Callback("ok", 0) in s.callbacks
         && Step(s, CallbackFires(Callback("ok", 0))).pastes == [Paste("ok", 1)]
  {
    var down, audio, end := PrimaryDown(Some(1), "A"), AudioFrame("A", 1, true, true), EndFrame("A", 1, true, true);
    var final, side, restore := AsrFinal("ok"), SecondaryClick("A"), RestoreChosen;
    DownBegins(Fresh());
    var s1 := Step(Fresh(), down);
    AudioStarts(s1);
    var s2 := Step(s1, audio);
    EndCloses(s2);
    var s3 := Step(s2, end);
    FinalWaits(s3);
    var s4 := Step(s3, final);
    hide Step;
    SideDrops(s4);
    var s5 := Step(s4, side);
    MenuRestores(s5);
    CallbackCommits(Step(s5, restore));
    RunOfThree(Fresh(), down, audio, end);
    RunOfThree(s3, final, side, restore);
    RunOfTwoParts(Fresh(), [down, audio, end], [final, side, restore]);
    assert [down, audio, end] + [final, side, restore] == [down, audio, end, final, side, restore];
  }

  /** A recording of device A nothing has been recognized of yet. */
  predicate Untold(s: State) {
    && DeskOf(s) == Desk(NOTHING, None, [], [], []) && s.activeDevice == Some("A")
    && !s.pastedFinal && |s.outputs| == 1 && s.buffered == []
  }

  lemma {:induction false} DownBegins(s: State)
    requires s == Fresh()
    ensures var t := Step(s, PrimaryDown(Some(1), "A"));
      Untold(t) && t.activeSession == Some(1) && !t.sentFinal && !t.asrStarted && !t.waiting && t.asr == []
  {
  }

  lemma {:induction false} AudioStarts(s: State)
    requires Untold(s) && s.activeSession == Some(1) && !s.sentFinal && !s.asrStarted && !s.waiting && s.asr == []
    ensures var t := Step(s, AudioFrame("A", 1, true, true));
      Untold(t) && t.activeSession == Some(1) && !t.sentFinal && t.asrStarted && t.frames > 0 && AsrStart(0) in t.asr
  {
    hide Flushed;
    var t := Step(s, AudioFrame("A", 1, true, true));
    assert t.asr[0] == AsrStart(0);
  }

  lemma {:induction false} EndCloses(s: State)
    requires Untold(s) && s.activeSession == Some(1) && !s.sentFinal && s.asrStarted && s.frames > 0 && AsrStart(0) in s.asr
    ensures var t := Step(s, EndFrame("A", 1, true, true));
      Untold(t) && t.activeSession == None && t.session == Finalizing && AsrStart(0) in t.asr
  {
  }

  lemma {:induction false} FinalWaits(s: State)
    requires Untold(s) && s.activeSession == None && AsrStart(0) in s.asr
    ensures var t := Step(s, AsrFinal("ok"));
      DeskOf(t) == Desk(Pending(WaitingToPaste, "ok"), Some("ok"), ["ok"], [Callback("ok", 0)], [])
      && t.activeSession == None && t.activeDevice == Some("A") && t.session == PendingConfirmation && AsrStart(0) in t.asr
  {
  }

  lemma {:induction false} SideDrops(s: State)
    requires DeskOf(s) == Desk(Pending(WaitingToPaste, "ok"), Some("ok"), ["ok"], [Callback("ok", 0)], [])
    requires s.activeSession == None && s.activeDevice == Some("A") && s.session == PendingConfirmation
    ensures var t := Step(s, SecondaryClick("A"));
      DeskOf(t) == Desk(NOTHING, Some("ok"), ["ok"], [Callback("ok", 0)], [])
      && t.session == Ready && t.activeSession == None && t.asr == s.asr
  {
  }

  lemma {:induction false} MenuRestores(s: State)
    requires DeskOf(s) == Desk(NOTHING, Some("ok"), ["ok"], [Callback("ok", 0)], [])
    requires s.session == Ready && s.activeSession == None
    ensures DeskOf(Step(s, RestoreChosen)) == Desk(Pending(Paused, "ok"), Some("ok"), ["ok", "ok"], [Callback("ok", 0)], [])
    ensures Step(s, RestoreChosen).asr == s.asr
  {
  }

  lemma {:induction false} CallbackCommits(s: State)
    requires DeskOf(s) == Desk(Pending(Paused, "ok"), Some("ok"), ["ok", "ok"], [Callback("ok", 0)], [])
    ensures Step(s, CallbackFires(Callback("ok", 0))).pastes == [Paste("ok", 1)]
  {
  }

  lemma {:induction false} RunCons(s: State, e: Event, rest: seq<Event>)
    requires Possible(s, e) && IsRun(Step(s, e), rest)
    ensures IsRun(s, [e] + rest) && Run(s, [e] + rest) == Run(Step(s, e), rest)
  {
    hide Step, Possible;
    var events := [e] + rest;
    assert events[0] == e && events[1..] == rest;
  }

  lemma {:induction false} RunOfThree(s: State, a: Event, b: Event, c: Event)
    requires !a.CallbackFires? && !b.CallbackFires? && !c.CallbackFires?
    ensures IsRun(s, [a, b, c]) && Run(s, [a, b, c]) == Step(Step(Step(s, a), b), c)
  {
    hide Step;
    var s1, s2 := Step(s, a), Step(Step(s, a), b);
    RunCons(s2, c, []);
    RunCons(s1, b, [c]);
    RunCons(s, a, [b, c]);
    assert [c] + [] == [c] && [b] + [c] == [b, c] && [a] + [b, c] == [a, b, c];
    hide IsRun;
  }

  lemma {:induction false} RunOfTwoParts(s: State, front: seq<Event>, back: seq<Event>)
    requires IsRun(s, front) && IsRun(Run(s, front), back)
    ensures IsRun(s, front + back) && Run(s, front + back) == Run(Run(s, front), back)
    decreases front
  {
    hide Step, Possible;
    if front == [] {
      assert front + back == back;
    } else {
      var e, rest := front[0], front[1..];
      assert IsRun(Step(s, e), rest) && Run(s, front) == Run(Step(s, e), rest);
      RunOfTwoParts(Step(s, e), rest, back);
      RunCons(s, e, rest + back);
      assert [e] + (rest + back) == front + back;
    }
  }

  /** Closing a recording leaves an error on show in a state other than Error exactly when its last chunk was
      to start the recognizer and the recognizer refused: the handler still enters Finalizing. */
  lemma {:induction false} ErrorIsMaskedIff(s: State, long: bool, startOk: bool)
    requires RecInv(s) && Live(s)
    ensures var t := SendFinal(s, long, startOk);
      t.showingError && t.session != Error <==> !s.asrStarted && long && s.frames > 0 && !startOk
  {
    LiveFacts(s);
    hide RecInv, Flushed;
  }
}
