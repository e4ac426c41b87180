/** How a recording ends on the air: END is sent as soon as the radio takes it, and every recording can end. */
module AudioEnding {
  import opened Optional
  import opened Bytes
  import opened AudioTransport
  import opened AudioPipeline
  import opened AudioPipelineSafety
  import opened AudioDelivery
  import AudioParser

  /** A radio that is connected, takes a notification, and has room for a frame without packets. */
  predicate Takes(config: Config, radio: Radio) {
    radio.ready && radio.accepts && HEADER_SIZE <= radio.capacity <= config.frameBuffer
  }

  predicate Known(link: Link) {
    link.version == V1 || link.version == V2
  }

  lemma {:induction false} MarkerIsSent(config: Config, link: Link, radio: Radio, endSeq: uint32)
    requires Known(link)
    ensures SendAudio(config, link, radio, Marker(endSeq)).Some? <==> Takes(config, radio)
    ensures Takes(config, radio) ==>
      IsEndMarker(config, SendAudio(config, link, radio, Marker(endSeq)).value, endSeq)
  {
    assert SeqAfter(endSeq, 0) == endSeq;
    assert [Marker(endSeq)][1..] == [] && Body(V1, [Marker(endSeq)]) == [];
    assert ScanError(V1, endSeq, [Marker(endSeq)], 0) == ScanError(V1, endSeq, [Marker(endSeq)], 1) == None;
    assert HasEnd(END);
    hide Header, UnionFlags;
    if Takes(config, radio) {
      var octets := SendAudio(config, link, radio, Marker(endSeq)).value;
      if link.version == V2 {
        assert Encode(V2, config.session, endSeq, END, [], radio.capacity) == Wire(octets);
      } else {
        assert Encode(V1, config.session, endSeq, 0, [Marker(endSeq)], radio.capacity) == Wire(octets);
      }
    }
  }

  /** With a radio that takes it, END goes out at the first try, and a host reads it as the end marker. */
  lemma {:induction false} EndIsSent(config: Config, s: State, radio: Radio)
    requires s.tx.Ending? && Known(s.link) && Takes(config, radio)
    ensures var t := Step(config, s, TrySendEnd(radio));
      && t.tx == Exited(s.tx.endSeq, true)
      && |t.wire| == |s.wire| + 1 && t.wire[..|s.wire|] == s.wire
      && HostReads(config, t.wire[|s.wire|], [Marker(s.tx.endSeq)])
  {
    MarkerIsSent(config, s.link, radio, s.tx.endSeq);
    hide SendAudio, IsEndMarker, HostReads;
    EndIsRead(config, SendAudio(config, s.link, radio, Marker(s.tx.endSeq)).value, s.tx.endSeq);
  }

  // ---- END is given up only after every try was refused ----

  function Attempts(tx: Tx): nat {
    match tx
    case Ending(_, retries) => retries
    case Exited(_, _) => MAX_RETRIES
    case _ => 0
  }

  function EndTries(events: seq<Event>): nat {
    if events == [] then 0 else (if events[0].TrySendEnd? then 1 else 0) + EndTries(events[1..])
  }

  ghost predicate AllRefused(config: Config, events: seq<Event>) {
    forall i :: 0 <= i < |events| && events[i].TrySendEnd? ==> !Takes(config, events[i].radio)
  }

  /** The i-th event is the first try the radio could take. */
  ghost predicate FirstTaken(config: Config, events: seq<Event>, i: nat)
    requires i < |events|
  {
    events[i].TrySendEnd? && Takes(config, events[i].radio) && AllRefused(config, events[..i])
  }

  lemma {:induction false} StepEnds(config: Config, s: State, e: Event)
    requires Enabled(config, s, e) && Known(s.link) && (s.tx.Ending? ==> s.tx.retries < MAX_RETRIES)
    ensures var t := Step(config, s, e);
      && Known(t.link) && (t.tx.Ending? ==> t.tx.retries < MAX_RETRIES)
      && (s.tx.Exited? ==> t.tx == s.tx)
      && (e.TrySendEnd? ==> s.tx.Ending?)
      && (!e.TrySendEnd? && !s.tx.Exited? ==> !t.tx.Exited? && Attempts(t.tx) == Attempts(s.tx))
      && (e.TrySendEnd? && Takes(config, e.radio) ==> t.tx == Exited(s.tx.endSeq, true))
      && (e.TrySendEnd? && !Takes(config, e.radio) ==>
            Attempts(t.tx) == Attempts(s.tx) + 1 && (t.tx.Ending? || t.tx == Exited(s.tx.endSeq, false)))
  {
    if e.TrySendEnd? {
      MarkerIsSent(config, s.link, e.radio, s.tx.endSeq);
    }
    hide SendAudio, SendBundle, GenuineAck;
  }

  ghost predicate EndsAs(config: Config, s: State, events: seq<Event>, t: State) {
    && (s.tx.Exited? ==> t.tx == s.tx && EndTries(events) == 0 && AllRefused(config, events))
    && (!s.tx.Exited? && !(t.tx.Exited? && t.tx.delivered) ==>
          EndTries(events) == Attempts(t.tx) - Attempts(s.tx) && AllRefused(config, events))
    && (!s.tx.Exited? && t.tx.Exited? && t.tx.delivered ==>
          && Attempts(s.tx) + EndTries(events) <= MAX_RETRIES
          && exists i :: 0 <= i < |events| && FirstTaken(config, events, i))
  }

  lemma {:induction false} RunEnds(config: Config, s: State, events: seq<Event>)
    requires IsRun(config, s, events) && Known(s.link) && (s.tx.Ending? ==> s.tx.retries < MAX_RETRIES)
    ensures EndsAs(config, s, events, Run(config, s, events))
    decreases events
  {
    if events != [] {
      var e, rest, next := events[0], events[1..], Step(config, s, events[0]);
      StepEnds(config, s, e);
      hide Step, Enabled, Takes;
      RunEnds(config, next, rest);
      EndsCons(config, s, e, next, rest, Run(config, next, rest));
      assert events == [e] + rest;
    }
  }

  lemma {:induction false} EndsCons(config: Config, s: State, e: Event, next: State, rest: seq<Event>, t: State)
    requires EndsAs(config, next, rest, t)
    requires s.tx.Exited? ==> next.tx == s.tx && !e.TrySendEnd?
    requires !s.tx.Exited? && !e.TrySendEnd? ==> !next.tx.Exited? && Attempts(next.tx) == Attempts(s.tx)
    requires e.TrySendEnd? && Takes(config, e.radio) ==> next.tx.Exited? && next.tx.delivered && Attempts(s.tx) < MAX_RETRIES
    requires e.TrySendEnd? && !Takes(config, e.radio) ==>
      Attempts(next.tx) == Attempts(s.tx) + 1 && (next.tx.Exited? ==> !next.tx.delivered)
    ensures EndsAs(config, s, [e] + rest, t)
  {
    hide Takes;
    var events := [e] + rest;
    assert events[1..] == rest;
    assert forall i :: 0 < i < |events| ==> events[i] == rest[i - 1];
    if t.tx.Exited? && t.tx.delivered && !s.tx.Exited? {
      if e.TrySendEnd? && Takes(config, e.radio) {
        assert FirstTaken(config, events, 0);
      } else {
        var i :| 0 <= i < |rest| && FirstTaken(config, rest, i);
        var before := events[..i + 1];
        assert forall j :: 0 < j < |before| ==> before[j] == rest[j - 1] && rest[j - 1] == rest[..i][j - 1];
        assert FirstTaken(config, events, i + 1);
      }
    }
  }

  /** On every run: a transmit task that exits without having delivered END tried exactly eight times, and the
      radio could take none of them; one that delivered it had its earlier tries refused. */
  lemma {:induction false} EndIsGivenUpIff(config: Config, events: seq<Event>)
    requires config.Valid() && IsRun(config, Initial(config), events)
    ensures var t := Run(config, Initial(config), events).tx;
      && (t.Exited? && !t.delivered ==> EndTries(events) == MAX_RETRIES && AllRefused(config, events))
      && (t.Exited? && t.delivered ==>
            && 0 < EndTries(events) <= MAX_RETRIES
            && exists i :: 0 <= i < |events| && FirstTaken(config, events, i))
      && (!t.Exited? ==> EndTries(events) < MAX_RETRIES && AllRefused(config, events))
  {
    RunEnds(config, Initial(config), events);
    RunKnowsLink(config, Initial(config), events);
    hide Run, IsRun, Takes;
    forall i | 0 <= i < |events| && events[i].TrySendEnd?
      ensures EndTries(events) > 0
    {
      SomeTry(events, i);
    }
  }

  lemma {:induction false} RunKnowsLink(config: Config, s: State, events: seq<Event>)
    requires IsRun(config, s, events) && Known(s.link) && (s.tx.Ending? ==> s.tx.retries < MAX_RETRIES)
    ensures var t := Run(config, s, events); Known(t.link) && (t.tx.Ending? ==> t.tx.retries < MAX_RETRIES)
    decreases events
  {
    if events != [] {
      StepEnds(config, s, events[0]);
      hide Step, Enabled, Takes;
      RunKnowsLink(config, Step(config, s, events[0]), events[1..]);
    }
  }

  lemma {:induction false} SomeTry(events: seq<Event>, i: nat)
    requires i < |events| && events[i].TrySendEnd?
    ensures EndTries(events) > 0
    decreases events
  {
    if i > 0 {
      SomeTry(events[1..], i - 1);
    }
  }

  // ---- every recording can end ----

  function Willing(config: Config): Radio {
    Radio(true, config.frameBuffer, true)
  }

  /** What the firmware does next once the button is up. */
  function Onward(config: Config, s: State): Event {
    if s.running then StopRequested
    else
      match s.tx
      case Idle => if s.queue == [] then CaptureTaskEnds else ReceiveFirst
      case Collecting(_) => if s.queue == [] then CollectTimesOut else CollectNext
      case Sending(_, _, _) => TrySend(Willing(config))
      case _ => TrySendEnd(Willing(config))
  }

  function Rank(tx: Tx): nat {
    match tx
    case Idle => 1
    case Collecting(_) => 20
    case Sending(_, retries, _) => if retries <= MAX_RETRIES then 2 + MAX_RETRIES - retries else 2
    case _ => 0
  }

  ghost predicate Closer(s: State, t: State) {
    || (s.running && !t.running)
    || (s.running == t.running && !s.captureDone && t.captureDone)
    || (s.running == t.running && s.captureDone == t.captureDone && |t.queue| < |s.queue|)
    || (s.running == t.running && s.captureDone == t.captureDone && t.queue == s.queue && Rank(t.tx) < Rank(s.tx))
  }

  lemma {:induction false} OnwardIsEnabled(config: Config, s: State)
    requires Inv(config, s) && !s.tx.Exited?
    ensures Enabled(config, s, Onward(config, s))
  {
    hide Conserved;
  }

  lemma {:induction false} OnwardIsCloser(config: Config, s: State)
    requires Inv(config, s) && !s.tx.Exited? && !(s.tx.Ending? && !s.running)
    requires Enabled(config, s, Onward(config, s))
    ensures Closer(s, Step(config, s, Onward(config, s)))
    ensures Known(s.link) ==> Known(Step(config, s, Onward(config, s)).link)
    ensures !Step(config, s, Onward(config, s)).tx.Exited?
  {
    assert s.tx.Sending? ==> s.tx.retries < MAX_RETRIES;
    hide Inv, SendBundle, GenuineAck;
  }

  /** From every state a recording can be in, whatever was lost before: with a radio that takes notifications
      it comes to an end, and END goes out with the number of captured frames. */
  lemma {:induction false} EveryRecordingCanEnd(config: Config, s: State) returns (events: seq<Event>)
    requires Inv(config, s) && Known(s.link) && !s.tx.Exited? && HEADER_SIZE <= config.frameBuffer
    ensures IsRun(config, s, events)
    ensures var t := Run(config, s, events); t.tx == Exited(t.nextSeq, true)
    decreases s.running, !s.captureDone, |s.queue|, Rank(s.tx)
  {
    var e := Onward(config, s);
    OnwardIsEnabled(config, s);
    StepKeeps(config, s, e);
    var t := Step(config, s, e);
    if s.tx.Ending? && !s.running {
      EndIsSent(config, s, Willing(config));
      assert t.tx == Exited(t.nextSeq, true);
      hide Step, Enabled, Inv, Onward;
      events := [e];
      assert events[1..] == [] && IsRun(config, t, []) && Run(config, t, []) == t;
    } else {
      OnwardIsCloser(config, s);
      hide Step, Enabled, Inv, Onward, Rank;
      var rest := EveryRecordingCanEnd(config, t);
      events := [e] + rest;
      assert events[1..] == rest;
    }
  }

  // ---- v1 frames go out one by one ----

  /** Under v1 a ready radio with room takes every frame at the first try, whatever was acknowledged. */
  lemma {:induction false} V1FrameIsSent(config: Config, s: State, radio: Radio)
    requires Inv(config, s) && config.version == V1 && s.link.version == V1 && s.tx.Sending?
    requires radio.ready && radio.accepts && HEADER_SIZE + |s.tx.bundle[0].payload| <= radio.capacity <= config.frameBuffer
    ensures |s.tx.bundle| == 1
    ensures var t := AfterTrySend(config, s, radio);
      t.bundles == s.bundles + [s.tx.bundle] && t.sentFrames == s.sentFrames + 1
  {
    HeldIsCapture(config, s);
    var p := s.tx.bundle[0];
    hide Inv, Header;
    assert [p][1..] == [] && Body(V1, [p]) == p.payload;
    assert SeqAfter(p.seqNo, 0) == p.seqNo;
    assert ScanError(V1, p.seqNo, [p], 0).None?;
    assert SendBundle(config, s.link, radio, s.tx.bundle).Some?;
  }
}
