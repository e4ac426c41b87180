/** When a v2 recording has notified its last frame for good, and when it only seems so. */
module AudioStall {
  import opened Optional
  import opened Bytes
  import opened AudioTransport
  import opened AudioPipeline
  import opened AudioPipelineSafety
  import opened AudioWindow
  import opened AudioStallSteps

  /** Whatever happens next, short of a reconnect, no further frame is notified. */
  ghost predicate Stuck(config: Config, s: State) {
    forall events :: IsRun(config, s, events) && NoReset(events) ==> Run(config, s, events).bundles == s.bundles
  }

  /** On a bound v2 link, as long as the bundle now forming has no gap: no further frame can be notified,
      whatever is captured, acknowledged or retried, exactly when nothing is left to send or that bundle
      ends more than a window beyond the last notified frame. */
  lemma {:induction false} StuckIff(config: Config, s: State, room: nat)
    requires Inv(config, s) && WindowInv(config, s) && config.version == V2 && Bound(config, s)
    requires Roomy(config, room) && Sound(config, s, room)
    ensures Stuck(config, s) <==> Spent(s) || Beyond(config, s)
  {
    if Spent(s) || Beyond(config, s) {
      forall events | IsRun(config, s, events) && NoReset(events)
        ensures Run(config, s, events).bundles == s.bundles
      {
        StaysSilent(config, s, events);
      }
    } else {
      var events := Notifies(config, s, room);
    }
  }

  // ---- between bundles ----

  /** The queue holds the latest captures without a gap, each within the budget. */
  ghost predicate Steady(queue: seq<Packet>, nextSeq: nat, room: nat) {
    && (forall i :: 0 <= i < |queue| ==> queue[i].seqNo + |queue| == nextSeq + i)
    && Small(queue, room)
  }

  ghost predicate PayloadsWithin(events: seq<Event>, room: nat) {
    forall i :: 0 <= i < |events| && events[i].Captured? ==> |events[i].payload| <= room
  }

  lemma {:induction false} SteadyAppend(queue: seq<Packet>, nextSeq: nat, room: nat, packet: Packet)
    requires Steady(queue, nextSeq, room) && packet.seqNo == nextSeq && |packet.payload| <= room
    ensures Steady(queue + [packet], nextSeq + 1, room)
  {
  }

  lemma {:induction false} SteadyTail(queue: seq<Packet>, nextSeq: nat, room: nat)
    requires Steady(queue, nextSeq, room) && queue != []
    ensures Steady(queue[1..], nextSeq, room)
  {
  }

  lemma {:induction false} CaptureKeepsSteady(queue: seq<Packet>, nextSeq: nat, room: nat, packet: Packet)
    requires Steady(queue, nextSeq, room) && packet.seqNo == nextSeq && |packet.payload| <= room
    ensures Steady(queue + [packet], nextSeq + 1, room)
    ensures queue != [] ==> Steady(queue[1..] + [packet], nextSeq + 1, room)
  {
    SteadyAppend(queue, nextSeq, room, packet);
    if queue != [] {
      SteadyTail(queue, nextSeq, room);
      SteadyAppend(queue[1..], nextSeq, room, packet);
    }
  }

  lemma {:induction false} TakeKeepsSteady(s: State, room: nat)
    requires QueueInv(s) && s.queue != [] && Steady(Waiting(s.queue), s.nextSeq, room)
    ensures Steady(Waiting(s.queue[1..]), s.nextSeq, room)
  {
    TakeFromQueue(s);
    hide QueueInv, IsMarker;
    if IsMarker(s.queue[0]) {
      assert Waiting([]) == [];
    } else {
      hide Waiting;
      SteadyTail(Waiting(s.queue), s.nextSeq, room);
      assert Waiting(s.queue)[1..] == Waiting(s.queue[1..]);
    }
  }

  lemma {:induction false} UnmarkedWaiting(queue: seq<Packet>, packet: Packet)
    requires !IsMarker(packet)
    ensures Waiting(queue + [packet]) == queue + [packet]
    ensures queue != [] ==> Waiting(queue[1..] + [packet]) == queue[1..] + [packet]
  {
  }

  lemma {:induction false} CapturedSteady(config: Config, s: State, payload: Payload, room: nat)
    requires QueueInv(s) && Enabled(config, s, Captured(payload)) && Steady(Waiting(s.queue), s.nextSeq, room)
    requires |payload| <= room
    ensures Steady(Waiting(AfterCapture(s, payload).queue), AfterCapture(s, payload).nextSeq, room)
  {
    var packet := Packet(s.nextSeq, if s.nextSeq == 0 then START else 0, payload);
    assert Waiting(s.queue) == s.queue;
    UnmarkedWaiting(s.queue, packet);
    hide QueueInv, Waiting, Steady;
    CaptureKeepsSteady(s.queue, s.nextSeq, room, packet);
  }

  lemma {:induction false} StepKeepsSteady(config: Config, s: State, e: Event, room: nat)
    requires Inv(config, s) && Enabled(config, s, e) && Steady(Waiting(s.queue), s.nextSeq, room)
    requires e.Captured? ==> |e.payload| <= room
    ensures Steady(Waiting(Step(config, s, e).queue), Step(config, s, e).nextSeq, room)
  {
    assert QueueInv(s);
    hide Inv, Steady;
    if e.Captured? {
      CapturedSteady(config, s, e.payload, room);
      hide QueueInv, Waiting, Enabled, AfterCapture;
    } else if e.ReceiveFirst? || e.CollectNext? {
      TakeKeepsSteady(s, room);
      hide QueueInv, Waiting;
    } else if e.CaptureTaskEnds? {
      assert Waiting(s.queue + [Marker(s.nextSeq)]) == s.queue == Waiting(s.queue);
      hide QueueInv, Waiting;
    } else {
      QuietQueue(config, s, e);
      hide QueueInv, Waiting, Step, Enabled;
    }
  }

  lemma {:induction false} RunKeepsSteady(config: Config, s: State, events: seq<Event>, room: nat)
    requires Inv(config, s) && IsRun(config, s, events) && Steady(Waiting(s.queue), s.nextSeq, room)
    requires PayloadsWithin(events, room)
    ensures Steady(Waiting(Run(config, s, events).queue), Run(config, s, events).nextSeq, room)
    decreases events
  {
    if events != [] {
      StepKeeps(config, s, events[0]);
      StepKeepsSteady(config, s, events[0], room);
      assert PayloadsWithin(events[1..], room);
      hide Step, Enabled, Inv, Steady;
      RunKeepsSteady(config, Step(config, s, events[0]), events[1..], room);
    }
  }

  /** Where the next bundle ends at the earliest, from the counters alone. */
  function FirstEnd(config: Config, s: State): int {
    var waiting := |Waiting(s.queue)|;
    if waiting == 0 then s.nextSeq + 1 else s.nextSeq - waiting + Min(config.bundleSize, waiting)
  }

  lemma {:induction false} SteadyHead(queue: seq<Packet>, nextSeq: uint32, room: nat, n: nat)
    requires Steady(queue, nextSeq, room) && n <= |queue|
    ensures Contiguous(queue[..n]) && Small(queue[..n], room)
    ensures EndAt(queue, n, nextSeq) == if n == 0 then nextSeq + 1 else nextSeq - |queue| + n
  {
    if n > 0 {
      assert queue[0].seqNo + |queue| == nextSeq;
    }
  }

  lemma {:induction false} IdleIsSound(config: Config, s: State, room: nat)
    requires config.Valid() && s.tx.Idle? && Steady(Waiting(s.queue), s.nextSeq, room)
    ensures Sound(config, s, room) && NextEnd(config, s) == FirstEnd(config, s)
  {
    assert Pending(s) == Waiting(s.queue);
    SteadyHead(Waiting(s.queue), s.nextSeq, room, Min(config.bundleSize, |Waiting(s.queue)|));
    hide Waiting, Steady, Contiguous, Small, EndAt, Pending;
  }

  /** On every run, between two bundles: the recording is stuck exactly when it has nothing left to send or
      the packets at the head of the queue end more than a window beyond the last notified frame. */
  lemma {:induction false} StuckBetweenBundlesIff(config: Config, events: seq<Event>, room: nat)
    requires config.Valid() && config.version == V2 && IsRun(config, Initial(config), events)
    requires PayloadsWithin(events, room) && Roomy(config, room)
    ensures var s := Run(config, Initial(config), events);
      s.tx.Idle? && Bound(config, s) ==>
        (Stuck(config, s) <==> Spent(s) || FirstEnd(config, s) > Reach(s) + config.maxInflight)
  {
    var s := Run(config, Initial(config), events);
    InitiallyInv(config);
    RunKeepsWindow(config, Initial(config), events);
    RunKeepsSteady(config, Initial(config), events, room);
    hide Run, IsRun, Inv, WindowInv, Stuck, Spent, Steady;
    if s.tx.Idle? && Bound(config, s) {
      IdleIsSound(config, s, room);
      StuckIff(config, s, room);
    }
  }

  // ---- a transmit task that starts late ----

  function CaptureEvents(payloads: seq<Payload>): seq<Event> {
    seq(|payloads|, i requires 0 <= i < |payloads| => Captured(payloads[i]))
  }

  /** Captures before the transmit task first runs: the queue keeps the last of them. */
  predicate Undrained(config: Config, s: State, n: nat) {
    && s.running && !s.captureDone && s.nextSeq == n && s.tx.Idle? && s.bundles == []
    && s.link == Link(config.version, config.session, 0)
    && |s.queue| == Min(n, QUEUE_DEPTH) && Waiting(s.queue) == s.queue
  }

  lemma {:induction false} CapturesPile(config: Config, s: State, n: nat, payloads: seq<Payload>)
    requires n + |payloads| < TWO_TO_THE_32 && Undrained(config, s, n)
    ensures IsRun(config, s, CaptureEvents(payloads))
    ensures Undrained(config, Run(config, s, CaptureEvents(payloads)), n + |payloads|)
    decreases payloads
  {
    if payloads != [] {
      var events := CaptureEvents(payloads);
      assert events[0] == Captured(payloads[0]) && events[1..] == CaptureEvents(payloads[1..]);
      var next := Step(config, s, events[0]);
      assert Waiting(next.queue) == next.queue;
      hide Step, Waiting;
      CapturesPile(config, next, n + 1, payloads[1..]);
    }
  }

  /** If the transmit task first runs after n captures, the recording is stuck from the start exactly when
      its first bundle, the oldest packets left in the queue, ends beyond the window. */
  lemma {:induction false} LateStartStuckIff(config: Config, payloads: seq<Payload>, room: nat)
    requires config.Valid() && config.version == V2 && |payloads| < TWO_TO_THE_32 && Roomy(config, room)
    requires forall i :: 0 <= i < |payloads| ==> |payloads[i]| <= room
    ensures IsRun(config, Initial(config), CaptureEvents(payloads))
    ensures Stuck(config, Run(config, Initial(config), CaptureEvents(payloads)))
      <==> |payloads| >= QUEUE_DEPTH + config.maxInflight - config.bundleSize + 1
  {
    CapturesPile(config, Initial(config), 0, payloads);
    StuckBetweenBundlesIff(config, CaptureEvents(payloads), room);
    hide Run, IsRun, Stuck, Roomy, Waiting;
  }
}
