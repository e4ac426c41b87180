/** How the Windows sender's update session ends, told by the happening that ended it. */
module OtaWindowsEnding {
  import opened Optional
  import opened Bytes
  import opened OtaProtocol
  import opened OtaDevice
  import opened OtaWindows
  import opened H = OtaWindowsHost

  /** The device reports this transfer as done. */
  predicate Reported(t: Transfer, e: Happening) {
    e == Heard(Done(t.id))
  }

  /** A refusal of the frame that is waited for, a write that fails, a final wait that ends, an error report of
      the device whatever its transfer, a cancellation, or a disconnect. */
  predicate Broken(t: Transfer, h: Host, e: Happening) {
    match e
    case Answered(status) => status != Success && (h.phase.AwaitBegin? || h.phase.AwaitData? || h.phase.AwaitEnd?)
    case WriteFails => !h.phase.Idle? && !h.phase.Returned?
    case FinalWaitEnds => CanTimeOut(t, h)
    case Heard(notice) => notice.Error?
    case Cancels(_) => true
    case Disconnects => true
    case Resumes => false
  }

  /** The first happening that ends the session. */
  function Ender(t: Transfer, s: Sender, events: seq<Happening>): Option<Happening>
    requires |t.image| < TWO_TO_THE_32
    decreases events
  {
    if events == [] then None
    else if Reported(t, events[0]) || Broken(t, s.host, events[0]) then Some(events[0])
    else Ender(t, H.Step(t, s, events[0]), events[1..])
  }

  /** The session is open as long as nothing ended it; its completion was called with what ended it, and an
      ABORT was written for a cancellation while the device was connected, and for nothing else. */
  predicate EndsBy(t: Transfer, s: Sender, ender: Option<Happening>) {
    if ender.None? then s.host.open && s.host.completions == [] && s.abortAt.None?
    else
      && !s.host.open && s.host.completions == [Reported(t, ender.value)]
      && (s.abortAt.Some? <==> ender.value == Cancels(true))
  }

  lemma {:induction false} ClosedStays(t: Transfer, s: Sender, events: seq<Happening>)
    requires |t.image| < TWO_TO_THE_32 && !s.host.open
    ensures var r := H.Run(t, s, events);
      !r.host.open && r.host.completions == s.host.completions && r.abortAt == s.abortAt
    decreases events
  {
    if events != [] {
      var n := H.Step(t, s, events[0]);
      assert !n.host.open && n.host.completions == s.host.completions && n.abortAt == s.abortAt;
      hide H.Step;
      ClosedStays(t, n, events[1..]);
    }
  }

  lemma {:induction false} StepEnds(t: Transfer, s: Sender, e: Happening)
    requires |t.image| < TWO_TO_THE_32 && EndsBy(t, s, None)
    ensures EndsBy(t, H.Step(t, s, e), if Reported(t, e) || Broken(t, s.host, e) then Some(e) else None)
  {
  }

  lemma {:induction false} RunEnds(t: Transfer, s: Sender, events: seq<Happening>)
    requires |t.image| < TWO_TO_THE_32 && EndsBy(t, s, None)
    ensures EndsBy(t, H.Run(t, s, events), Ender(t, s, events))
    decreases events
  {
    if events != [] {
      var n := H.Step(t, s, events[0]);
      StepEnds(t, s, events[0]);
      hide H.Step, Reported, Broken;
      if n.host.open {
        RunEnds(t, n, events[1..]);
      } else {
        ClosedStays(t, n, events[1..]);
      }
    }
  }

  /** Over every run of answers, events, failures and cancellations: completion is called with success if and
      only if the first happening that ends the session is the device's report that this transfer is done; it
      is called with failure for anything else that ends it, and not at all before. */
  lemma {:induction false} CompletedIff(t: Transfer, events: seq<Happening>)
    requires |t.image| < TWO_TO_THE_32
    ensures EndsBy(t, H.Run(t, H.Started(), events), Ender(t, H.Started(), events))
  {
    hide H.Run, H.Step;
    RunEnds(t, H.Started(), events);
  }
}
