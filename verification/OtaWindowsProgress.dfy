/** The main results about the Windows sender: limited exposure, no deadlock, termination, completion. */
module OtaWindowsProgress {
  import opened Optional
  import opened Bytes
  import opened OtaProtocol
  import opened OtaDevice
  import opened OtaStream
  import opened OtaWindows

  // ---- safety ----

  predicate CleanReply(r: Reply) {
    match r
    case Status(status) => status == Success || status == NoAnswer
    case Note(notice) => !notice.Error? && !notice.Aborted?
  }

  lemma {:induction false} ReportsAreClean(t: Transfer, back: seq<Reply>, low: nat, high: nat)
    requires Reports(t, back, low, high)
    ensures forall i :: 0 <= i < |back| ==> CleanReply(back[i])
    decreases back
  {
    if back != [] {
      ReportsAreClean(t, back[1..], back[0].notice.written, high);
      assert forall i :: 0 < i < |back| ==> back[i] == back[1..][i - 1];
    }
  }

  lemma {:induction false} InvIsClean(t: Transfer, partitionSize: nat, s: System)
    requires t.Writable(partitionSize) && Inv(t, partitionSize, s)
    ensures forall i :: 0 <= i < |s.back| ==> CleanReply(s.back[i])
  {
    hide Holds, Chain, LastReport, Committed;
    if s.host.phase.Sending? {
      ReportsAreClean(t, s.back, s.host.confirmed, s.device.written);
    } else if s.host.phase.AwaitData? {
      if s.forward != [] {
        ReportsAreClean(t, s.back, s.host.confirmed, s.device.written);
      } else {
        var reports := s.back[..|s.back| - 1];
        ReportsAreClean(t, reports, s.host.confirmed, s.device.written);
        assert forall i :: 0 <= i < |reports| ==> s.back[i] == reports[i];
      }
    } else if s.host.phase.Returned? && !t.hasProgress {
      ReportsAreClean(t, s.back, 0, s.device.written);
    }
  }

  /** On every run: no write is ever refused (END in particular is never too early), the host is told the
      truth about how much is written, and at most the window and one chunk are unconfirmed. */
  lemma {:induction false} NothingRefused(t: Transfer, partitionSize: nat, events: seq<Event>)
    requires t.Writable(partitionSize) && IsRun(t, partitionSize, Initial(), events)
    ensures var s := Run(t, partitionSize, Initial(), events);
      && (forall i :: 0 <= i < |s.back| ==> CleanReply(s.back[i]))
      && (s.device.active ==> (s.device.written <= |t.image| && s.host.confirmed <= s.device.written
                               && s.device.spare == t.image[..s.device.written]))
      && (s.device.boot.Some? ==> s.device.boot.value == t.image)
      && (t.withoutResponse ==> s.host.offset <= s.host.confirmed + MAX_IN_FLIGHT + t.chunkSize)
      && (s.host.completions == [] || s.host.completions == [t.hasProgress])
  {
    RunKeeps(t, partitionSize, Initial(), events);
    var s := Run(t, partitionSize, Initial(), events);
    InvIsClean(t, partitionSize, s);
    hide Run, IsRun, CleanReply, Inv;
    StateIsTrue(t, partitionSize, s);
  }

  lemma {:induction false} ReportsAreBounded(t: Transfer, back: seq<Reply>, low: nat, high: nat)
    requires Reports(t, back, low, high)
    ensures low <= high
  {
  }

  lemma {:induction false} StateIsTrue(t: Transfer, partitionSize: nat, s: System)
    requires t.Writable(partitionSize) && Inv(t, partitionSize, s)
    ensures s.device.active ==> (s.device.written <= |t.image| && s.host.confirmed <= s.device.written
                                 && s.device.spare == t.image[..s.device.written])
    ensures s.device.boot.Some? ==> s.device.boot.value == t.image
    ensures t.withoutResponse ==> s.host.offset <= s.host.confirmed + MAX_IN_FLIGHT + t.chunkSize
    ensures s.host.completions == [] || s.host.completions == [t.hasProgress]
  {
    if s.host.phase.Sending? {
      ReportsAreBounded(t, s.back, s.host.confirmed, s.device.written);
    } else if s.host.phase.AwaitData? && s.forward != [] {
      ReportsAreBounded(t, s.back, s.host.confirmed, s.device.written);
    } else if s.host.phase.AwaitData? {
      ReportsAreBounded(t, s.back[..|s.back| - 1], s.host.confirmed, s.device.written);
    } else if s.host.phase.Returned? && !t.hasProgress {
      ReportsAreBounded(t, s.back, 0, s.device.written);
    }
    hide Chain, LastReport, Boundary, Reports, Recent;
  }

  // ---- no deadlock ----

  predicate AtRest(t: Transfer, s: System) {
    && !Enabled(t, s, HostActs) && !Enabled(t, s, DeviceTakes) && !Enabled(t, s, HostTakes)
    && !Enabled(t, s, WaitTimesOut)
  }

  /** With everything delivered, less than a report's step is unconfirmed, so the window is open. */
  lemma {:induction false} WindowOpensAtRest(t: Transfer, partitionSize: nat, s: System)
    requires t.Writable(partitionSize) && t.hasProgress && SendingInv(t, partitionSize, s)
    requires s.forward == [] && s.back == []
    ensures s.device.written == s.host.offset
    ensures s.host.confirmed <= s.host.offset < s.host.confirmed + PROGRESS_STEP
    ensures s.host.offset == |t.image| ==> s.host.confirmed == |t.image|
  {
    SameBoundary(s.host.confirmed, s.device.written);
    hide Boundary;
  }

  lemma {:induction false} SameBoundary(a: nat, b: nat)
    requires Boundary(a) == Boundary(b)
    ensures b < a + PROGRESS_STEP
  {
  }

  /** The last chunk starts within the first window, so an unheard update still sends all of it. */
  predicate FitsUnheard(t: Transfer)
    requires t.chunkSize > 0
  {
    !t.withoutResponse || LastStart(t.chunkSize, |t.image|) <= MAX_IN_FLIGHT
  }

  /** Where the last chunk up to some offset starts. */
  function LastStart(chunkSize: nat, offset: nat): int
    requires chunkSize > 0
  {
    chunkSize * ((offset - 1) / chunkSize)
  }

  /** Chunks start at multiples of their size; unheard ones start within the first window. */
  predicate Paced(t: Transfer, h: Host)
    requires t.chunkSize > 0
  {
    && (h.offset < |t.image| ==> h.offset % t.chunkSize == 0)
    && (h.phase.AwaitData? ==> h.offset < |t.image| && h.phase.end == ChunkEnd(t, h))
    && (t.withoutResponse && !t.hasProgress && h.offset > 0 ==> LastStart(t.chunkSize, h.offset) <= MAX_IN_FLIGHT)
  }

  lemma {:induction false} ChunkStarts(chunkSize: nat, offset: nat, end: nat)
    requires chunkSize > 0 && offset % chunkSize == 0 && offset < end <= offset + chunkSize
    ensures LastStart(chunkSize, end) == offset
    ensures end == offset + chunkSize ==> end % chunkSize == 0
  {
    var k := offset / chunkSize;
    assert offset == chunkSize * k;
    UniqueRemainder(end - 1, chunkSize, k, end - 1 - offset);
    if end == offset + chunkSize {
      UniqueRemainder(end, chunkSize, k + 1, 0);
    }
  }

  lemma {:induction false} EarlierStarts(chunkSize: nat, offset: nat, size: nat)
    requires chunkSize > 0 && offset % chunkSize == 0 && offset < size
    ensures offset <= LastStart(chunkSize, size)
  {
    var k, m := offset / chunkSize, (size - 1) / chunkSize;
    assert offset == chunkSize * k && size - 1 == chunkSize * m + (size - 1) % chunkSize;
    if m < k {
      AtLeast(chunkSize, k - m);
      Distribute(chunkSize, k, m);
    } else if k < m {
      AtLeast(chunkSize, m - k);
      Distribute(chunkSize, m, k);
    }
  }

  lemma {:induction false} ActKeepsPace(t: Transfer, h: Host)
    requires 0 < t.chunkSize && |t.image| < TWO_TO_THE_32 && Paced(t, h) && CanAct(t, h)
    requires h.phase.Idle? ==> h.offset == 0
    requires !t.hasProgress ==> h.confirmed == 0
    ensures Paced(t, Act(t, h).0)
  {
    if h.phase.Sending? && h.offset < |t.image| {
      ChunkStarts(t.chunkSize, h.offset, ChunkEnd(t, h));
    }
    hide LastStart;
  }

  lemma {:induction false} AnswerKeepsPace(t: Transfer, h: Host, r: Reply)
    requires 0 < t.chunkSize && Paced(t, h) && (h.phase.AwaitData? ==> !t.withoutResponse)
    ensures Paced(t, OnReply(t, h, r))
  {
    if h.phase.AwaitData? {
      ChunkStarts(t.chunkSize, h.offset, h.phase.end);
    }
    hide LastStart;
  }

  lemma {:induction false} StepKeepsPace(t: Transfer, partitionSize: nat, s: System, e: Event)
    requires t.Writable(partitionSize) && Inv(t, partitionSize, s) && Enabled(t, s, e) && Paced(t, s.host)
    ensures Paced(t, Step(t, partitionSize, s, e).host)
  {
    match e
    case HostActs =>
      assert (s.host.phase.Idle? ==> s.host.offset == 0) && (!t.hasProgress ==> s.host.confirmed == 0) by {
        hide Chain, Reports, LastReport, Recent, Boundary, Holds, Committed;
      }
      ActKeepsPace(t, s.host);
      hide Inv, Paced;
    case HostTakes =>
      AnswerKeepsPace(t, s.host, s.back[0]);
      hide Paced;
    case DeviceTakes => hide Inv, Executed;
    case WaitTimesOut => hide Inv, LastStart;
  }

  lemma {:induction false} RunKeepsPace(t: Transfer, partitionSize: nat, s: System, events: seq<Event>)
    requires t.Writable(partitionSize) && Inv(t, partitionSize, s) && Paced(t, s.host) && IsRun(t, partitionSize, s, events)
    ensures Inv(t, partitionSize, Run(t, partitionSize, s, events))
    ensures Paced(t, Run(t, partitionSize, s, events).host)
    decreases events
  {
    if events != [] {
      StepKeeps(t, partitionSize, s, events[0]);
      StepKeepsPace(t, partitionSize, s, events[0]);
      hide Step, Enabled, Inv, Paced;
      RunKeepsPace(t, partitionSize, Step(t, partitionSize, s, events[0]), events[1..]);
    }
  }

  /** The conversation comes to rest only when the update is over. With a progress callback it is complete.
      Without one nothing is ever confirmed: the final wait gives up if all could be sent, and otherwise the
      sender waits for its window for ever. */
  lemma {:induction false} RestMeansDone(t: Transfer, partitionSize: nat, s: System)
    requires t.Writable(partitionSize) && Inv(t, partitionSize, s) && Paced(t, s.host) && AtRest(t, s)
    ensures t.hasProgress ==>
      s.host.phase == Returned && s.host.completions == [true] && s.device.boot == Some(t.image)
    ensures !t.hasProgress ==> s.device.boot == None && s.host.confirmed == 0
    ensures !t.hasProgress && FitsUnheard(t) ==> s.host.phase == Returned && s.host.completions == [false]
    ensures !t.hasProgress && !FitsUnheard(t) ==>
      s.host.phase == Sending && MustWait(t, s.host) && s.host.completions == []
  {
    match s.host.phase {
      case Sending =>
        if t.hasProgress {
          assert s.forward == [] && s.back == [];
          WindowOpensAtRest(t, partitionSize, s);
        } else if s.host.offset < |t.image| {
          EarlierStarts(t.chunkSize, s.host.offset, |t.image|);
        }
        hide Chain, Reports, LastReport, Recent, Boundary, LastStart;
      case _ => hide Chain, Reports, LastReport, Recent, Boundary, LastStart;
    }
  }

  // ---- termination ----

  /** Work left: octets to send, messages under way, and the phases to come. */
  function Measure(t: Transfer, s: System): int {
    var sent := if s.host.phase.AwaitData? then s.host.phase.end else s.host.offset;
    var phase := match s.host.phase
      case Idle => 8
      case AwaitBegin => 4
      case Sending => 4
      case AwaitData(_) => 4
      case _ => 0;
    4 * (|t.image| - sent) + 3 * |s.forward| + |s.back| + phase
  }

  lemma {:induction false} StepProgresses(t: Transfer, partitionSize: nat, s: System, e: Event)
    requires t.Writable(partitionSize) && Inv(t, partitionSize, s) && Enabled(t, s, e)
    ensures Measure(t, Step(t, partitionSize, s, e)) < Measure(t, s)
  {
    match e {
      case HostActs => hide Inv;
      case DeviceTakes =>
        hide Inv, Executed;
      case HostTakes => HearingProgresses(t, partitionSize, s);
      case WaitTimesOut => hide Inv;
    }
  }

  lemma {:induction false} HearingProgresses(t: Transfer, partitionSize: nat, s: System)
    requires t.Writable(partitionSize) && Inv(t, partitionSize, s) && s.back != []
    ensures Measure(t, Step(t, partitionSize, s, HostTakes)) < Measure(t, s)
  {
    InvIsClean(t, partitionSize, s);
    hide Chain, Reports, LastReport, Recent, Boundary, Holds;
  }

  lemma {:induction false} MeasureIsNatural(t: Transfer, partitionSize: nat, s: System)
    requires t.Writable(partitionSize) && Inv(t, partitionSize, s)
    ensures Measure(t, s) >= 0
  {
    hide Chain, Reports, LastReport, Recent, Boundary, Holds, Committed;
  }

  lemma {:induction false} RunIsShort(t: Transfer, partitionSize: nat, s: System, events: seq<Event>)
    requires t.Writable(partitionSize) && Inv(t, partitionSize, s) && IsRun(t, partitionSize, s, events)
    ensures |events| <= Measure(t, s)
    decreases events
  {
    if events == [] {
      MeasureIsNatural(t, partitionSize, s);
    } else {
      StepKeeps(t, partitionSize, s, events[0]);
      StepProgresses(t, partitionSize, s, events[0]);
      hide Step, Enabled, Inv, Measure;
      RunIsShort(t, partitionSize, Step(t, partitionSize, s, events[0]), events[1..]);
    }
  }

  // ---- an empty image ----

  /** The device refuses the BEGIN of an empty image, and the host gives up once. */
  ghost predicate EmptyInv(t: Transfer, s: System)
    requires t.image == []
  {
    && s.device == Fresh()
    && (|| s == Initial()
        || (s.host == Host(AwaitBegin, 0, 0, true, false, []) && s.forward == [Begin(0, t.id)] && s.back == [])
        || (s.host == Host(AwaitBegin, 0, 0, true, false, []) && s.forward == []
            && s.back == [Note(Error(BadSize)), Status(InvalidLength)])
        || (s.host == Host(AwaitBegin, 0, 0, false, false, [false]) && s.forward == [] && s.back == [Status(InvalidLength)])
        || (s.host == Host(Returned, 0, 0, false, false, [false]) && s.forward == [] && s.back == []))
  }

  lemma {:induction false} EmptyStep(t: Transfer, partitionSize: nat, s: System, e: Event)
    requires t.Valid(partitionSize) && t.image == [] && EmptyInv(t, s) && Enabled(t, s, e)
    ensures EmptyInv(t, Step(t, partitionSize, s, e))
    ensures 0 <= Measure(t, Step(t, partitionSize, s, e)) < Measure(t, s)
  {
    hide Boundary;
    if e.DeviceTakes? {
      assert s.forward == [Begin(0, t.id)];
      var o := Begun(partitionSize, s.device, t.id, 0, SOUND);
      assert o == Outcome(Fresh(), InvalidLength, [Error(BadSize)]);
      assert s.back + Notes(o.notices) + [Status(o.status)] == [Note(Error(BadSize)), Status(InvalidLength)];
    }
  }

  lemma {:induction false} EmptyRun(t: Transfer, partitionSize: nat, s: System, events: seq<Event>)
    requires t.Valid(partitionSize) && t.image == [] && EmptyInv(t, s) && IsRun(t, partitionSize, s, events)
    requires 0 <= Measure(t, s)
    ensures EmptyInv(t, Run(t, partitionSize, s, events)) && |events| <= Measure(t, s)
    decreases events
  {
    if events != [] {
      EmptyStep(t, partitionSize, s, events[0]);
      hide Step, Enabled, EmptyInv, Measure;
      EmptyRun(t, partitionSize, Step(t, partitionSize, s, events[0]), events[1..]);
    }
  }

  // ---- completion ----

  /** Every run ends, and at rest the update was committed and reported complete exactly when the image is
      not empty and the caller passed a progress callback. It was reported as failed exactly when the image is
      empty, or no callback was passed and the last chunk starts within the first window (chunks that wait for
      an answer always do). Otherwise the sender waits for ever and reports nothing. */
  lemma {:induction false} CompletesIffProgressIsHeard(t: Transfer, partitionSize: nat, events: seq<Event>)
    requires t.Valid(partitionSize) && IsRun(t, partitionSize, Initial(), events)
    ensures |events| <= 4 * |t.image| + 8
    ensures var s := Run(t, partitionSize, Initial(), events);
      var told := s.host.completions;
      AtRest(t, s) ==>
        && (told == [true] <==> t.image != [] && t.hasProgress)
        && (told == [false] <==> t.image == [] || (!t.hasProgress && FitsUnheard(t)))
        && (told == [] <==> t.image != [] && !t.hasProgress && !FitsUnheard(t))
        && s.device.boot == (if told == [true] then Some(t.image) else None)
        && (told == [] ==> MustWait(t, s.host))
  {
    var s := Run(t, partitionSize, Initial(), events);
    if t.image == [] {
      EmptyRun(t, partitionSize, Initial(), events);
      hide Run, IsRun, Measure;
    } else {
      RunKeepsPace(t, partitionSize, Initial(), events);
      RunIsShort(t, partitionSize, Initial(), events);
      hide Run, IsRun, Inv, AtRest, FitsUnheard, Paced;
      if AtRest(t, s) {
        RestMeansDone(t, partitionSize, s);
      }
    }
  }
}
