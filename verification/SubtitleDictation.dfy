/** What one subtitle recording comes to, and that recordings which overlap do not disturb each other. */
module SubtitleDictation {
  import opened Optional
  import opened SubtitleIndex

  /** The recording under key is the one numbered id; so many frames came, its recognizer runs or not, its
      button is released or not. */
  predicate Capturing(ix: Index, key: Key, id: nat, n: nat, started: bool, released: bool) {
    && key in ix.cycles
    && ix.cycles[key] == Cycle(id, key.device, key.session, n, started, false, released, if released then 1 else 0)
    && (!released ==> key.device in ix.active && ix.active[key.device] == key.session)
  }

  /** Nothing but the recording under key differs. */
  predicate OthersKept(ix: Index, t: Index, key: Key) {
    && t.cycles - {key} == ix.cycles - {key}
    && t.cancelled == ix.cancelled && t.finished == ix.finished
  }

  function Frames(key: Key, longs: seq<bool>): seq<Event> {
    seq(|longs|, i requires 0 <= i < |longs| => AudioFrame(key, longs[i], true))
  }

  lemma {:induction false} RunParts(ix: Index, front: seq<Event>, back: seq<Event>)
    ensures Run(ix, front + back) == Run(Run(ix, front), back)
    decreases front
  {
    if front == [] {
      assert front + back == back;
    } else {
      assert (front + back)[1..] == front[1..] + back;
      hide Step;
      RunParts(Step(ix, front[0]), front[1..], back);
    }
  }

  lemma {:induction false} RunOfOne(ix: Index, e: Event)
    ensures Run(ix, [e]) == Step(ix, e)
  {
    assert [e][1..] == [];
    hide Step;
    assert Run(Step(ix, e), []) == Step(ix, e);
  }

  // ---- step by step ----

  lemma {:induction false} PressBegins(ix: Index, key: Key)
    requires Consistent(ix) && key !in ix.cycles && key.session != 0
    ensures var t := Step(ix, ButtonDown(Some(key.session), key.device, true));
      Capturing(t, key, ix.nextId, 0, false, false) && OthersKept(ix, t, key)
  {
  }

  lemma {:induction false} FramesAreFed(ix: Index, key: Key, id: nat, n: nat, started: bool, released: bool,
                                        longs: seq<bool>)
    requires Capturing(ix, key, id, n, started, released)
    ensures var t := Run(ix, Frames(key, longs));
      && Capturing(t, key, id, n + |longs|, started || (true in longs && !released), released)
      && OthersKept(ix, t, key)
    decreases longs
  {
    if longs != [] {
      var e, more := AudioFrame(key, longs[0], true), started || (longs[0] && !released);
      var t := Step(ix, e);
      assert Capturing(t, key, id, n + 1, more, released) && OthersKept(ix, t, key);
      assert Frames(key, longs)[0] == e && Frames(key, longs)[1..] == Frames(key, longs[1..]);
      hide Step, Capturing;
      FramesAreFed(t, key, id, n + 1, more, released, longs[1..]);
      assert true in longs <==> longs[0] || true in longs[1..];
      assert more || (true in longs[1..] && !released) <==> started || (true in longs && !released);
    } else {
      assert n + |longs| == n;
    }
  }

  lemma {:induction false} LongReleaseWaits(ix: Index, key: Key, id: nat, n: nat, started: bool, hold: bool)
    requires Capturing(ix, key, id, n, started, false)
    ensures var t := Step(ix, ButtonUp(key.device, true, hold));
      && Capturing(t, key, id, n, started, true) && OthersKept(ix, t, key)
      && (key.device in t.active <==> !hold)
  {
  }

  lemma {:induction false} EndCloses(ix: Index, key: Key, id: nat, n: nat, started: bool, e: Event)
    requires Capturing(ix, key, id, n, started, true) && n > 0
    requires e == EndFrame(key, true, true) || e == EndTimeout(key, 1, true, true)
    ensures var t := Step(ix, e);
      && OthersKept(ix, t, key) && key in t.cycles
      && t.cycles[key].id == id && t.cycles[key].sentFinal && t.cycles[key].asrStarted
  {
  }

  // ---- main results ----

  function Pressed(key: Key, front: seq<bool>): seq<Event> {
    [ButtonDown(Some(key.session), key.device, true)] + Frames(key, front)
  }

  /** Press, frames, a release after half a second, the frames under way, END or its timeout, the text. */
  function Spoken(key: Key, front: seq<bool>, hold: bool, back: seq<bool>, end: Event): seq<Event> {
    Pressed(key, front) + [ButtonUp(key.device, true, hold)] + Frames(key, back) + [end] + [AsrFinal(key)]
  }

  lemma {:induction false} PressedCaptures(ix: Index, key: Key, front: seq<bool>)
    requires Consistent(ix) && key !in ix.cycles && key.session != 0
    ensures var t := Run(ix, Pressed(key, front));
      Capturing(t, key, ix.nextId, |front|, true in front, false) && OthersKept(ix, t, key)
  {
    var down := ButtonDown(Some(key.session), key.device, true);
    PressBegins(ix, key);
    RunOfOne(ix, down);
    hide Step, Capturing;
    FramesAreFed(Step(ix, down), key, ix.nextId, 0, false, false, front);
    RunParts(ix, [down], Frames(key, front));
    assert false || (true in front && !false) <==> true in front;
    assert 0 + |front| == |front|;
    hide Run;
  }

  /** A long recording, in either mode, from whatever index: its recognizer gets to its last chunk and its
      cycle is finished by its text; no other cycle is touched. */
  lemma {:induction false} LongRecordingIsFinished(ix: Index, key: Key, front: seq<bool>, hold: bool, back: seq<bool>,
                                                   end: Event)
    requires Consistent(ix) && key !in ix.cycles && key.session != 0 && |front| + |back| > 0
    requires end == EndFrame(key, true, true) || end == EndTimeout(key, 1, true, true)
    ensures var t := Run(ix, Spoken(key, front, hold, back, end));
      && t.finished == ix.finished + {ix.nextId} && t.cancelled == ix.cancelled && t.cycles == ix.cycles - {key}
  {
    var id, up, final := ix.nextId, ButtonUp(key.device, true, hold), AsrFinal(key);
    var held := Run(ix, Pressed(key, front));
    PressedCaptures(ix, key, front);
    LongReleaseWaits(held, key, id, |front|, true in front, hold);
    var waiting := Step(held, up);
    FramesAreFed(waiting, key, id, |front|, true in front, true, back);
    var late := Run(waiting, Frames(key, back));
    EndCloses(late, key, id, |front| + |back|, true in front || (true in back && !true), end);
    var closed := Step(late, end);
    assert OthersKept(ix, closed, key);
    assert closed.cycles - {key} == ix.cycles - {key} == ix.cycles;
    assert Step(closed, final).cycles == closed.cycles - {key};
    assert Step(closed, final).cancelled == closed.cancelled && Step(closed, final).finished == closed.finished + {id};
    hide Run, Capturing, Step, OthersKept, Pressed, Frames;
    RunOfOne(held, up);
    RunOfOne(late, end);
    RunOfOne(closed, final);
    RunParts(ix, Pressed(key, front), [up]);
    RunParts(ix, Pressed(key, front) + [up], Frames(key, back));
    RunParts(ix, Pressed(key, front) + [up] + Frames(key, back), [end]);
    RunParts(ix, Pressed(key, front) + [up] + Frames(key, back) + [end], [final]);
  }

  /** What gives the recording under key up before its release. */
  predicate GivesUp(e: Event, key: Key) {
    || (e.ButtonUp? && e.device == key.device && !e.long)
    || e == SecondaryClick(key.device) || e == AsrError(key)
    || (e.ConnectionsChanged? && key.device !in e.connected) || e.Reset?
  }

  /** A recording given up before its release is cancelled, and what comes of it later is ignored. */
  lemma {:induction false} ShortRecordingIsCancelled(ix: Index, key: Key, front: seq<bool>, e: Event, late: Event)
    requires Inv(ix) && key !in ix.cycles && key.session != 0 && GivesUp(e, key)
    requires late == AsrFinal(key) || late == AsrError(key)
             || ((late.AudioFrame? || late.EndFrame? || late.EndTimeout?) && late.key == key)
    ensures var t := Run(ix, Pressed(key, front) + [e]);
      && ix.nextId in t.cancelled && ix.nextId !in t.finished && key !in t.cycles
      && Step(t, late) == t
  {
    var held := Run(ix, Pressed(key, front));
    PressedCaptures(ix, key, front);
    RunOfOne(held, e);
    RunParts(ix, Pressed(key, front), [e]);
    hide Run, Pressed;
    assert ix.nextId !in ix.finished;
    hide Inv;
    GivenUp(held, key, ix.nextId, |front|, true in front, e);
    LateIsIgnored(Step(held, e), key, late);
  }

  lemma {:induction false} GivenUp(ix: Index, key: Key, id: nat, n: nat, started: bool, e: Event)
    requires Capturing(ix, key, id, n, started, false) && GivesUp(e, key)
    ensures var t := Step(ix, e);
      id in t.cancelled && t.finished == ix.finished && key !in t.cycles
  {
    assert key in ix.cycles && ix.cycles[key].id == id;
    match e
    case ConnectionsChanged(connected) => assert key in KeysLost(ix, connected);
    case _ =>
  }

  lemma {:induction false} LateIsIgnored(ix: Index, key: Key, late: Event)
    requires key !in ix.cycles
    requires late == AsrFinal(key) || late == AsrError(key)
             || ((late.AudioFrame? || late.EndFrame? || late.EndTimeout?) && late.key == key)
    ensures Step(ix, late) == ix
  {
  }

  /** A recording that ends without a frame, or whose recognizer will not start, is cancelled; and where none
      can be made, the press only leaves the device without an active one. */
  lemma {:induction false} FailedRecordingIsCancelled(ix: Index, key: Key, id: nat, n: nat, released: bool, long: bool)
    requires Capturing(ix, key, id, n, false, released)
    ensures var t := Step(ix, EndFrame(key, long, false));
      id in t.cancelled && t.finished == ix.finished && key !in t.cycles
    ensures n == 0 ==> var t := Step(ix, EndFrame(key, true, true));
      id in t.cancelled && t.finished == ix.finished && key !in t.cycles
    ensures !released ==> var t := Step(ix, AudioFrame(key, true, false));
      id in t.cancelled && t.finished == ix.finished && key !in t.cycles
  {
  }

  lemma {:induction false} NoneIsMade(ix: Index, key: Key)
    requires Consistent(ix) && key !in ix.cycles && key.session != 0
    ensures Step(ix, ButtonDown(Some(key.session), key.device, false)) == ix.(active := ix.active - {key.device})
    ensures Step(ix, ButtonDown(None, key.device, true)) == Step(ix, ButtonDown(Some(0), key.device, true)) == ix
  {
  }

  /** Whether an event is about the recording under key: the buttons of its device are while it is the active
      one, the side button also while none is. */
  predicate IsAbout(ix: Index, e: Event, key: Key) {
    match e
    case ButtonDown(_, _, _) => false
    case ButtonUp(device, _, _) => device == key.device && device in ix.active && ix.active[device] == key.session
    case SecondaryClick(device) => device == key.device && (device in ix.active ==> ix.active[device] == key.session)
    case AudioFrame(k, _, _) => k == key
    case EndFrame(k, _, _) => k == key
    case EndTimeout(k, _, _, _) => k == key
    case AsrFinal(k) => k == key
    case AsrError(k) => k == key
    case ConnectionsChanged(connected) => key.device !in connected
    case Reset => true
  }

  /** Recordings that overlap, of one device or several, do not disturb each other: a step that is not about a
      recording leaves it as it is, and one that finishes or cancels it is about it. */
  lemma {:induction false} OverlapIsHarmless(ix: Index, e: Event, key: Key)
    requires Inv(ix) && key in ix.cycles && !IsAbout(ix, e, key)
    ensures var t := Step(ix, e);
      && key in t.cycles && t.cycles[key] == ix.cycles[key]
      && ix.cycles[key].id !in t.cancelled && ix.cycles[key].id !in t.finished
  {
    StepKeeps(ix, e);
    StepKeepsOthers(ix, e, key);
    hide Step, Consistent, IsAbout;
  }

  lemma {:induction false} StepKeepsOthers(ix: Index, e: Event, key: Key)
    requires Consistent(ix) && key in ix.cycles && !IsAbout(ix, e, key)
    ensures key in Step(ix, e).cycles && Step(ix, e).cycles[key] == ix.cycles[key]
  {
  }
}
