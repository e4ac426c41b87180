/** The Windows sender alone: whatever answers, events, failures and cancellations come, in any order. */
module OtaWindowsHost {
  import opened Optional
  import opened Bytes
  import opened OtaProtocol
  import opened OtaDevice
  import opened OtaWindows

  /** The sender, the frames its coroutine wrote, and behind how many of them an ABORT was written. */
  datatype Sender = Sender(host: Host, frames: seq<Command>, abortAt: Option<nat>)

  /** What can happen to the sender; connected says whether the device can still be written to. */
  datatype Happening =
    | Resumes
    | Answered(status: AttStatus)
    | WriteFails
    | Heard(notice: Notice)
    | FinalWaitEnds
    | Cancels(connected: bool)
    | Disconnects

  /** A cancelled coroutine returns when it next looks, in either of its loops. */
  predicate MustStop(t: Transfer, h: Host) {
    h.phase.Sending? && h.cancelled && (h.offset < |t.image| || h.confirmed < |t.image|)
  }

  function Resumed(t: Transfer, s: Sender): Sender
    requires |t.image| < TWO_TO_THE_32
  {
    if MustStop(t, s.host) then s.(host := s.host.(phase := Returned))
    else if CanAct(t, s.host) then
      var (host, command) := Act(t, s.host);
      s.(host := host, frames := s.frames + [command])
    else s
  }

  /** A write fails without an answer, or throws; writes without response may fail as well. */
  function Failed(h: Host): Host {
    if h.phase.Idle? || h.phase.Returned? then h else Finish(h.(phase := Returned), false)
  }

  function Cancelled(h: Host): Host {
    if h.open then Finish(h.(cancelled := true), false) else h
  }

  function Step(t: Transfer, s: Sender, e: Happening): Sender
    requires |t.image| < TWO_TO_THE_32
  {
    match e
    case Resumes => Resumed(t, s)
    case Answered(status) => s.(host := OnStatus(s.host, status))
    case WriteFails => s.(host := Failed(s.host))
    case Heard(notice) => s.(host := OnNotice(t, s.host, notice))
    case FinalWaitEnds => if CanTimeOut(t, s.host) then s.(host := TimeOut(s.host)) else s
    case Cancels(connected) =>
      Sender(Cancelled(s.host), s.frames,
             if s.host.open && connected then Some(|s.frames|) else s.abortAt)
    case Disconnects => s.(host := Finish(s.host, false))
  }

  function Run(t: Transfer, s: Sender, events: seq<Happening>): Sender
    requires |t.image| < TWO_TO_THE_32
    decreases events
  {
    if events == [] then s else Run(t, Step(t, s, events[0]), events[1..])
  }

  function Started(): Sender {
    Sender(Host(Idle, 0, 0, true, false, []), [], None)
  }

  // ---- the script of a transfer ----

  /** The frames of the image from an offset on, each but the last of full chunk size. */
  function Chunks(t: Transfer, offset: nat): seq<Command>
    requires 0 < t.chunkSize && |t.image| < TWO_TO_THE_32
    decreases |t.image| - offset
  {
    if offset >= |t.image| then []
    else
      var end := if offset + t.chunkSize < |t.image| then offset + t.chunkSize else |t.image|;
      [Data(t.id, offset, t.image[offset..end])] + Chunks(t, end)
  }

  function Script(t: Transfer): seq<Command>
    requires 0 < t.chunkSize && |t.image| < TWO_TO_THE_32
  {
    [Begin(|t.image|, t.id)] + Chunks(t, 0) + [End(t.id, |t.image|)]
  }

  /** What the coroutine has still to write. */
  function Left(t: Transfer, h: Host): seq<Command>
    requires 0 < t.chunkSize && |t.image| < TWO_TO_THE_32
  {
    match h.phase
    case Idle => Script(t)
    case AwaitData(end) => Chunks(t, end) + [End(t.id, |t.image|)]
    case AwaitEnd => []
    case Returned => []
    case _ => Chunks(t, h.offset) + [End(t.id, |t.image|)]
  }

  ghost predicate Inv(t: Transfer, s: Sender)
    requires 0 < t.chunkSize && |t.image| < TWO_TO_THE_32
  {
    && (if s.host.phase.Returned? then s.frames <= Script(t) else s.frames + Left(t, s.host) == Script(t))
    && (s.host.phase.Idle? || s.host.phase.AwaitBegin? ==> s.host.offset == 0)
    && (if s.host.open then s.host.completions == [] else |s.host.completions| == 1)
    && (s.host.cancelled ==> !s.host.open && s.host.completions == [false])
    && (s.abortAt.Some? ==>
          && s.host.cancelled && s.abortAt.value <= |s.frames|
          && forall i :: s.abortAt.value <= i < |s.frames| ==> !s.frames[i].Data?)
  }

  lemma {:induction false} FramesAreBeginning(t: Transfer, s: Sender)
    requires 0 < t.chunkSize && |t.image| < TWO_TO_THE_32 && Inv(t, s)
    ensures s.frames <= Script(t)
  {
    hide Script, Left;
  }

  lemma {:induction false} ActsOnScript(t: Transfer, h: Host, frames: seq<Command>)
    requires 0 < t.chunkSize && |t.image| < TWO_TO_THE_32 && CanAct(t, h)
    requires frames + Left(t, h) == Script(t) && (h.phase.Idle? ==> h.offset == 0)
    ensures var (next, command) := Act(t, h);
      frames + [command] + Left(t, next) == Script(t) && !next.phase.Returned?
  {
    var (next, command) := Act(t, h);
    ActTakesHead(t, h);
    hide Left, Script, Act;
    assert frames + ([command] + Left(t, next)) == frames + [command] + Left(t, next);
  }

  lemma {:induction false} ActTakesHead(t: Transfer, h: Host)
    requires 0 < t.chunkSize && |t.image| < TWO_TO_THE_32 && CanAct(t, h) && (h.phase.Idle? ==> h.offset == 0)
    ensures var (next, command) := Act(t, h); Left(t, h) == [command] + Left(t, next) && !next.phase.Returned?
  {
    var (next, command) := Act(t, h);
    var end := [End(t.id, |t.image|)];
    if h.phase.Idle? {
      hide Chunks;
      assert Left(t, next) == Chunks(t, 0) + end;
    } else if h.offset < |t.image| {
      var after := ChunkEnd(t, h);
      assert Chunks(t, h.offset) == [command] + Chunks(t, after);
      hide Chunks;
      assert Left(t, next) == Chunks(t, after) + end;
    } else {
      assert Chunks(t, h.offset) == [] && Left(t, next) == [];
    }
  }

  lemma {:induction false} StepKeeps(t: Transfer, s: Sender, e: Happening)
    requires 0 < t.chunkSize && |t.image| < TWO_TO_THE_32 && Inv(t, s)
    ensures Inv(t, Step(t, s, e))
  {
    FramesAreBeginning(t, s);
    if e.Resumes? && CanAct(t, s.host) {
      ActsOnScript(t, s.host, s.frames);
    }
    hide Script, Chunks;
  }

  lemma {:induction false} RunKeeps(t: Transfer, s: Sender, events: seq<Happening>)
    requires 0 < t.chunkSize && |t.image| < TWO_TO_THE_32 && Inv(t, s)
    ensures Inv(t, Run(t, s, events))
    decreases events
  {
    if events != [] {
      StepKeeps(t, s, events[0]);
      hide Step, Inv;
      RunKeeps(t, Step(t, s, events[0]), events[1..]);
    }
  }

  /** Whatever happens: the frames are a beginning of BEGIN, the image in consecutive chunks, END; completion
      is called once at most; the ABORT of a cancellation is written once and no data frame behind it. */
  lemma {:induction false} FramesFollowScript(t: Transfer, events: seq<Happening>)
    requires 0 < t.chunkSize && |t.image| < TWO_TO_THE_32
    ensures var s := Run(t, Started(), events);
      && s.frames <= Script(t)
      && |s.host.completions| <= 1
      && (s.abortAt.Some? ==>
            && s.host.completions == [false] && s.abortAt.value <= |s.frames|
            && forall i :: s.abortAt.value <= i < |s.frames| ==> !s.frames[i].Data?)
  {
    assert Inv(t, Started()) by {
      assert [] + Script(t) == Script(t);
    }
    RunKeeps(t, Started(), events);
    FramesAreBeginning(t, Run(t, Started(), events));
    hide Run, Script;
  }
}
