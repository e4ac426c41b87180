/**
 The steps of a v2 recording towards silence, and towards its next notification.

 A recording is silent when nothing is left to send, or when the bundle now forming ends beyond the window.
 That bundle never ends earlier, whatever is captured, overwritten, collected, refused or given up, so a
 silent recording stays silent.

 Otherwise there is hope as long as the bundle has no gap: acknowledge what was notified, capture a frame if
 there is none, collect, and send.
 */
module AudioStallSteps {
  import opened Optional
  import opened Bytes
  import opened AudioTransport
  import opened AudioPipeline
  import opened AudioPipelineSafety
  import opened AudioWindow
  import TransportProfile

  function Min(a: nat, b: nat): nat {
    if a < b then a else b
  }

  /** How many of the pending packets the bundle now forming takes at least. */
  function Taken(config: Config, tx: Tx, pending: nat): nat {
    if tx.Sending? then |tx.bundle| else Min(config.bundleSize, pending)
  }

  /** The number that acknowledges the first n packets; with none, what the next capture makes of it. */
  function EndAt(packets: seq<Packet>, n: nat, nextSeq: nat): nat
    requires n <= |packets|
  {
    if n == 0 then nextSeq + 1 else packets[n - 1].seqNo + 1
  }

  /** The least number that can acknowledge the bundle now forming. */
  function NextEnd(config: Config, s: State): nat {
    EndAt(Pending(s), Taken(config, s.tx, |Pending(s)|), s.nextSeq)
  }

  /** The bundle now forming ends beyond the window, even if everything notified is acknowledged. */
  predicate Beyond(config: Config, s: State) {
    NextEnd(config, s) > Reach(s) + config.maxInflight
  }

  /** Nothing is left to send, and nothing more can be captured. */
  predicate Spent(s: State) {
    Pending(s) == [] && (!s.running || s.captureDone || s.nextSeq + 1 == TWO_TO_THE_32)
  }

  ghost predicate Silent(config: Config, s: State) {
    Spent(s) || (config.version == V2 && s.link.version == V2 && Bound(config, s) && Beyond(config, s))
  }

  // ---- the bundle now forming never ends earlier ----

  lemma {:induction false} PendingAscends(config: Config, s: State)
    requires Inv(config, s) && !s.tx.Exited?
    ensures Captures(Pending(s), s.nextSeq)
    ensures Taken(config, s.tx, |Pending(s)|) == 0 <==> Pending(s) == []
  {
    PendingAfterReach(config, s);
    hide Captures, QueueInv, Conserved, Waiting;
  }

  lemma {:induction false} EndAfterAppend(p: seq<Packet>, x: Packet, n: nat, m: nat, nextSeq: nat)
    requires Captures(p, nextSeq) && x.seqNo == nextSeq && n <= |p| && n <= m <= |p| + 1
    requires n == 0 ==> p == []
    ensures EndAt(p + [x], m, nextSeq + 1) >= EndAt(p, n, nextSeq)
  {
  }

  lemma {:induction false} EndAfterLoss(p: seq<Packet>, lost: nat, x: Packet, n: nat, nextSeq: nat)
    requires Captures(p, nextSeq) && x.seqNo == nextSeq && lost < |p| && 0 < n <= |p|
    ensures EndAt(p[..lost] + p[lost + 1..] + [x], n, nextSeq + 1) >= EndAt(p, n, nextSeq)
  {
    var q := p[..lost] + p[lost + 1..] + [x];
    assert q[n - 1] == if n - 1 < lost then p[n - 1] else if n < |p| then p[n] else x;
  }

  lemma {:induction false} CaptureEndsLater(config: Config, s: State, payload: Payload)
    requires Inv(config, s) && !s.tx.Exited? && Enabled(config, s, Captured(payload))
    ensures NextEnd(config, Step(config, s, Captured(payload))) >= NextEnd(config, s)
  {
    PendingAscends(config, s);
    var t := Step(config, s, Captured(payload));
    var packet := Packet(s.nextSeq, if s.nextSeq == 0 then START else 0, payload);
    assert t.tx == s.tx && t.nextSeq == s.nextSeq + 1;
    assert t.queue == if |s.queue| < QUEUE_DEPTH then s.queue + [packet] else s.queue[1..] + [packet];
    assert s.queue == [] || !IsMarker(s.queue[|s.queue| - 1]);
    assert 0 < config.bundleSize <= QUEUE_DEPTH && (s.tx.Sending? ==> s.tx.bundle != []);
    hide Inv, Step, Captures, EndAt;
    assert Pending(s) == Held(s.tx) + s.queue && Pending(t) == Held(s.tx) + t.queue;
    PacketEndsLater(config, s.tx, s.queue, s.nextSeq, packet);
  }

  lemma {:induction false} PacketEndsLater(config: Config, tx: Tx, queue: seq<Packet>, nextSeq: uint32, packet: Packet)
    requires Captures(Held(tx) + queue, nextSeq) && packet.seqNo == nextSeq
    requires 0 < config.bundleSize <= QUEUE_DEPTH && (tx.Sending? ==> tx.bundle != [])
    ensures var p := Held(tx) + queue;
      var q := Held(tx) + if |queue| < QUEUE_DEPTH then queue + [packet] else queue[1..] + [packet];
      EndAt(q, Taken(config, tx, |q|), nextSeq + 1) >= EndAt(p, Taken(config, tx, |p|), nextSeq)
  {
    hide Captures, EndAt;
    var held, full := Held(tx), |queue| >= QUEUE_DEPTH;
    var p, q := held + queue, held + if full then queue[1..] + [packet] else queue + [packet];
    var n, m := Taken(config, tx, |p|), Taken(config, tx, |q|);
    assert n <= |p| && n <= m <= |p| + 1 && (n == 0 ==> p == []) && (full ==> n == m > 0);
    AppendOrLose(held, queue, packet);
    hide Held, Taken;
    if full {
      EndAfterLoss(p, |held|, packet, n, nextSeq);
    } else {
      EndAfterAppend(p, packet, n, m, nextSeq);
    }
  }

  lemma {:induction false} AppendOrLose(held: seq<Packet>, queue: seq<Packet>, packet: Packet)
    ensures held + (queue + [packet]) == held + queue + [packet]
    ensures queue != [] ==>
      held + (queue[1..] + [packet]) == (held + queue)[..|held|] + (held + queue)[|held| + 1..] + [packet]
  {
  }

  lemma {:induction false} TakingEndsSame(config: Config, s: State, e: Event)
    requires Inv(config, s) && Enabled(config, s, e)
    requires e.ReceiveFirst? || e.CollectNext? || e.CollectTimesOut?
    ensures var t := Step(config, s, e);
      && Pending(t) == Pending(s) && Taken(config, t.tx, |Pending(t)|) == Taken(config, s.tx, |Pending(s)|)
      && t.nextSeq == s.nextSeq && t.bundles == s.bundles && t.link == s.link && !t.tx.Exited?
  {
    var t := Step(config, s, e);
    if e.CollectTimesOut? {
      assert Pending(t) == Pending(s) == s.tx.bundle;
    } else {
      TakeFromQueue(s);
      hide QueueInv, Conserved, Waiting, IsMarker;
      PendingOfTaken(s.tx, t.tx, s.queue);
      hide Pending;
    }
  }

  /** The transmit loop moves the oldest packet of the queue into its bundle; the marker ends collection. */
  lemma {:induction false} PendingOfTaken(before: Tx, after: Tx, queue: seq<Packet>)
    requires queue != []
    requires IsMarker(queue[0]) ==> Waiting(queue) == [] && queue[1..] == [] && Held(after) == Held(before)
    requires !IsMarker(queue[0]) ==> Waiting(queue) == [queue[0]] + Waiting(queue[1..])
    requires !IsMarker(queue[0]) ==> Held(after) == Held(before) + [queue[0]]
    ensures Held(after) + Waiting(queue[1..]) == Held(before) + Waiting(queue)
  {
    hide Held, IsMarker;
    if IsMarker(queue[0]) {
      assert Waiting([]) == [];
    } else {
      hide Waiting;
    }
  }

  lemma {:induction false} AbandonedEndsLater(config: Config, s: State)
    requires Inv(config, s) && s.tx.Sending?
    ensures NextEnd(config, Abandoned(s)) >= NextEnd(config, s)
  {
    var t, p, n := Abandoned(s), Pending(s), |s.tx.bundle|;
    PendingAscends(config, s);
    assert Pending(t) == p[n..] && 0 < n <= |p|;
    hide Inv, Pending, Captures, EndAt;
    var m := Min(config.bundleSize, |p| - n);
    assert NextEnd(config, s) == EndAt(p, n, s.nextSeq) && NextEnd(config, t) == EndAt(p[n..], m, s.nextSeq);
    hide *;
    EndAfterDrop(p, n, m, s.nextSeq);
  }

  lemma {:induction false} EndAfterDrop(p: seq<Packet>, n: nat, m: nat, nextSeq: nat)
    requires Captures(p, nextSeq) && 0 < n <= |p| && m <= |p| - n
    ensures EndAt(p[n..], m, nextSeq) >= EndAt(p, n, nextSeq)
  {
  }

  // ---- a silent recording stays silent ----

  lemma {:induction false} SendingEnd(config: Config, s: State)
    requires Inv(config, s) && s.tx.Sending?
    ensures 0 < |s.tx.bundle| < 0x100 && NextEnd(config, s) == AckOf(s.tx.bundle)
    ensures s.tx.bundle == Pending(s)[..|s.tx.bundle|]
  {
    PendingAfterReach(config, s);
    var last := |s.tx.bundle| - 1;
    assert Pending(s)[last] == s.tx.bundle[last];
    hide QueueInv, Conserved, Waiting, Captures, Reach;
  }

  lemma {:induction false} BeyondIsRefused(config: Config, s: State, radio: Radio)
    requires Inv(config, s) && WindowInv(config, s) && s.tx.Sending?
    requires config.version == V2 && Bound(config, s) && Beyond(config, s)
    ensures |s.tx.bundle| < 0x100 && SendBundle(config, s.link, radio, s.tx.bundle).None?
  {
    SendingEnd(config, s);
    assert config.Valid();
    hide Inv;
    SentInWindow(config, s, radio);
    hide SendBundle, Pending, Reach, NextEnd, AckOf;
  }

  lemma {:induction false} StillBeyond(config: Config, s: State, t: State)
    requires config.version == V2 && s.link.version == V2 && Bound(config, s) && Beyond(config, s)
    requires t.bundles == s.bundles && t.link.version == s.link.version && t.link.session == s.link.session
    requires !s.tx.Exited? && !t.tx.Exited? && NextEnd(config, t) >= NextEnd(config, s)
    ensures Silent(config, t)
  {
    hide NextEnd, AckOf;
  }

  lemma {:induction false} ExitIsSpent(config: Config, s: State)
    requires Inv(config, s) && (s.tx.Exited? || s.tx.Ending?)
    ensures Spent(s)
  {
    hide TxInv, Conserved;
  }

  lemma {:induction false} QuietQueue(config: Config, s: State, e: Event)
    requires Enabled(config, s, e)
    requires !e.Captured? && !e.CaptureTaskEnds? && !e.ReceiveFirst? && !e.CollectNext?
    ensures Step(config, s, e).queue == s.queue && Step(config, s, e).nextSeq == s.nextSeq
  {
    hide SendBundle, SendAudio, GenuineAck;
  }

  lemma {:induction false} SpentStep(config: Config, s: State, e: Event)
    requires Inv(config, s) && Spent(s) && Enabled(config, s, e) && !e.LinkReset?
    ensures Step(config, s, e).bundles == s.bundles && Spent(Step(config, s, e))
  {
    SpentIsIdle(config, s);
    if e.ReceiveFirst? {
      TakingEndsSame(config, s, e);
      hide Inv, Pending, Taken;
    } else if e.CaptureTaskEnds? {
      assert Waiting(s.queue + [Marker(s.nextSeq)]) == s.queue == Waiting(s.queue);
      hide Inv, Waiting;
    } else {
      hide Inv;
      SpentQuietly(config, s, e);
      hide Step;
    }
  }

  lemma {:induction false} SpentQuietly(config: Config, s: State, e: Event)
    requires Spent(s) && Enabled(config, s, e) && (s.tx.Idle? || s.tx.Ending? || s.tx.Exited?)
    requires !e.LinkReset? && !e.ReceiveFirst? && !e.CaptureTaskEnds?
    ensures Step(config, s, e).bundles == s.bundles && Spent(Step(config, s, e))
  {
    assert e.StopRequested? || e.TrySendEnd? || e.AckArrives?;
    QuietQueue(config, s, e);
    var t := Step(config, s, e);
    assert Held(t.tx) == [] && t.bundles == s.bundles && t.captureDone == s.captureDone && (t.running ==> s.running) by {
      hide SendAudio, GenuineAck, Waiting;
    }
    hide Step, Waiting, Enabled;
  }

  lemma {:induction false} SpentIsIdle(config: Config, s: State)
    requires Inv(config, s) && Spent(s)
    ensures s.tx.Idle? || s.tx.Ending? || s.tx.Exited?
    ensures !s.captureDone ==> Waiting(s.queue) == s.queue
  {
    hide Conserved;
  }

  lemma {:induction false} ExitNotifiesNothing(config: Config, s: State, e: Event)
    requires Enabled(config, s, e) && Step(config, s, e).tx.Exited?
    ensures Step(config, s, e).bundles == s.bundles
  {
    hide SendAudio, SendBundle, GenuineAck, WindowOpen;
  }

  lemma {:induction false} BeyondStep(config: Config, s: State, e: Event)
    requires Inv(config, s) && WindowInv(config, s) && Enabled(config, s, e) && !e.LinkReset? && !s.tx.Exited?
    requires config.version == V2 && s.link.version == V2 && Bound(config, s) && Beyond(config, s)
    ensures Step(config, s, e).bundles == s.bundles && Silent(config, Step(config, s, e))
  {
    var t := Step(config, s, e);
    hide Inv, WindowInv, Beyond, Step, Enabled, Spent;
    StepKeeps(config, s, e);
    if t.tx.Exited? {
      ExitIsSpent(config, t);
      ExitNotifiesNothing(config, s, e);
    } else {
      BeyondGoesOn(config, s, e);
      StillBeyond(config, s, t);
    }
  }

  lemma {:induction false} BeyondSend(config: Config, s: State, radio: Radio)
    requires Inv(config, s) && WindowInv(config, s) && s.tx.Sending?
    requires config.version == V2 && Bound(config, s) && Beyond(config, s)
    ensures |s.tx.bundle| < 0x100
    ensures var t := AfterTrySend(config, s, radio);
      t.bundles == s.bundles && t.link == s.link && NextEnd(config, t) >= NextEnd(config, s)
  {
    BeyondIsRefused(config, s, radio);
    AbandonedEndsLater(config, s);
    hide Inv, WindowInv, Beyond, SendBundle, Waiting, Abandoned;
    var t := AfterTrySend(config, s, radio);
    if t != Abandoned(s) {
      assert t == s.(tx := Sending(s.tx.bundle, s.tx.retries + 1, s.tx.end));
    } else {
      hide NextEnd;
      assert Abandoned(s).bundles == s.bundles && Abandoned(s).link == s.link by { AbandonedQuietly(s); }
    }
  }

  lemma {:induction false} AbandonedQuietly(s: State)
    requires s.tx.Sending?
    ensures Abandoned(s).bundles == s.bundles && Abandoned(s).link == s.link
  {
  }

  lemma {:induction false} BeyondGoesOn(config: Config, s: State, e: Event)
    requires Inv(config, s) && WindowInv(config, s) && Enabled(config, s, e) && !e.LinkReset? && !s.tx.Exited?
    requires config.version == V2 && s.link.version == V2 && Bound(config, s) && Beyond(config, s)
    requires !Step(config, s, e).tx.Exited?
    ensures var t := Step(config, s, e);
      && t.bundles == s.bundles && NextEnd(config, t) >= NextEnd(config, s)
      && t.link.version == s.link.version && t.link.session == s.link.session
  {
    match e {
      case Captured(payload) =>
        CaptureEndsLater(config, s, payload);
        hide Inv, WindowInv, NextEnd, Beyond;
      case ReceiveFirst => TakingEndsSame(config, s, e); hide Inv, WindowInv, Beyond, Pending, Step, Taken;
      case CollectNext => TakingEndsSame(config, s, e); hide Inv, WindowInv, Beyond, Pending, Step, Taken;
      case CollectTimesOut => TakingEndsSame(config, s, e); hide Inv, WindowInv, Beyond, Pending, Step, Taken;
      case TrySend(radio) => BeyondSend(config, s, radio); hide Inv, WindowInv, Beyond, AfterTrySend, Taken, Pending;
      case CaptureTaskEnds =>
        assert Waiting(s.queue + [Marker(s.nextSeq)]) == s.queue == Waiting(s.queue);
        hide Inv, WindowInv, Beyond, Waiting;
      case _ => hide Inv, WindowInv, Beyond, Waiting, SendAudio, GenuineAck;
    }
  }

  lemma {:induction false} StaysSilent(config: Config, s: State, events: seq<Event>)
    requires Inv(config, s) && WindowInv(config, s) && Silent(config, s)
    requires IsRun(config, s, events) && NoReset(events)
    ensures Run(config, s, events).bundles == s.bundles
    decreases events
  {
    if events != [] {
      var e, next := events[0], Step(config, s, events[0]);
      StepKeeps(config, s, e);
      StepKeepsWindow(config, s, e);
      if Spent(s) {
        SpentStep(config, s, e);
      } else {
        if s.tx.Exited? {
          ExitIsSpent(config, s);
        }
        BeyondStep(config, s, e);
      }
      assert NoReset(events[1..]);
      hide Step, Enabled, Inv, WindowInv, Silent;
      StaysSilent(config, next, events[1..]);
    }
  }

  // ---- otherwise it can notify ----

  ghost predicate Small(packets: seq<Packet>, room: nat) {
    forall i :: 0 <= i < |packets| ==> |packets[i].payload| <= room
  }

  /** A full bundle of packets of up to room octets fits the stack frame; the transport profile sees to that. */
  predicate Roomy(config: Config, room: nat) {
    1 <= room <= 0xff && TransportProfile.FrameSize(config.bundleSize, room) <= config.frameBuffer
  }

  /** The bundle now forming has no gap, and its packets keep to the budget. */
  ghost predicate Sound(config: Config, s: State, room: nat) {
    var n := Taken(config, s.tx, |Pending(s)|);
    Contiguous(Pending(s)[..n]) && Small(Pending(s)[..n], room)
  }

  ghost predicate Hopeful(config: Config, s: State, room: nat) {
    && Inv(config, s) && WindowInv(config, s)
    && config.version == V2 && Bound(config, s) && Roomy(config, room)
    && !Spent(s) && !Beyond(config, s) && Sound(config, s, room)
  }

  lemma {:induction false} ScanAccepts(firstSeq: uint32, packets: seq<Packet>, index: nat)
    requires index <= |packets|
    requires forall i :: index <= i < |packets| ==> packets[i].seqNo == SeqAfter(firstSeq, i) && |packets[i].payload| <= 0xff
    ensures ScanError(V2, firstSeq, packets, index).None?
    decreases |packets| - index
  {
    if index < |packets| {
      ScanAccepts(firstSeq, packets, index + 1);
    }
  }

  function Willing(config: Config): Radio {
    Radio(true, config.frameBuffer, true)
  }

  lemma {:induction false} BundleEncodes(config: Config, bundle: seq<Packet>, room: nat)
    requires config.Valid() && Roomy(config, room) && 0 < |bundle| <= config.bundleSize
    requires Contiguous(bundle) && Small(bundle, room)
    ensures Encode(V2, config.session, bundle[0].seqNo, 0, bundle, config.frameBuffer).Wire?
  {
    ScanAccepts(bundle[0].seqNo, bundle, 0);
    TransportProfile.BodyWithin(bundle, room);
    TransportProfile.MoreIsLarger(|bundle|, config.bundleSize, room);
    TransportProfile.MoreIsLarger(config.bundleSize, 4, room);
    hide Body, ScanError, Contiguous;
  }

  lemma {:induction false} HopefulIsSent(config: Config, s: State, room: nat)
    requires Hopeful(config, s, room) && s.tx.Sending? && s.link.acked == Reach(s)
    ensures |s.tx.bundle| < 0x100 && SendBundle(config, s.link, Willing(config), s.tx.bundle).Some?
  {
    SendingEnd(config, s);
    assert config.Valid() && s.tx.bundle != [] && |s.tx.bundle| <= config.bundleSize && s.link.version == V2;
    hide Inv, Pending, Reach, NextEnd, AckOf;
    BundleEncodes(config, s.tx.bundle, room);
    hide Encode, Contiguous, Small, Roomy;
    assert WindowOpen(config, s.link, AckOf(s.tx.bundle));
  }

  /** The next step towards a notification: acknowledge, capture, collect, send. */
  function NextMove(config: Config, s: State): Event {
    if s.link.acked < Reach(s) then AckArrives(config.session, Reach(s))
    else if Pending(s) == [] then Captured([0])
    else if s.tx.Idle? then ReceiveFirst
    else if s.tx.Collecting? then if s.queue == [] then CollectTimesOut else CollectNext
    else TrySend(Willing(config))
  }

  function Distance(s: State): nat {
    (if s.link.acked < Reach(s) then 100 else 0) + (if Pending(s) == [] then 50 else 0)
    + match s.tx
      case Idle => 20
      case Collecting(bundle) => if |bundle| < 10 then 10 - |bundle| else 0
      case _ => 0
  }

  lemma {:induction false} HopefulTx(config: Config, s: State, room: nat)
    requires Hopeful(config, s, room)
    ensures !s.tx.Exited? && !s.tx.Ending?
    ensures s.tx.Sending? || s.tx.Collecting? ==> 0 < |s.tx.bundle| <= config.bundleSize <= 4 && Pending(s) != []
    ensures s.tx.Collecting? ==> |s.tx.bundle| < config.bundleSize
    ensures Pending(s) == [] ==> s.tx.Idle? && s.queue == [] && Enabled(config, s, Captured([0]))
    ensures s.tx.Idle? && Pending(s) != [] ==> s.queue != [] && !IsMarker(s.queue[0])
  {
    if s.tx.Exited? || s.tx.Ending? {
      ExitIsSpent(config, s);
    }
    hide Conserved, WindowInv, Beyond, Sound, Reach;
  }

  lemma {:induction false} ReachIsGenuine(s: State)
    requires !s.tx.Exited? && 0 < Reach(s)
    ensures GenuineAck(s, Reach(s))
  {
    hide AckOf;
    assert Reach(s) == AckOf(s.bundles[|s.bundles| - 1]);
  }

  lemma {:induction false} AckMove(config: Config, s: State, room: nat)
    requires Hopeful(config, s, room) && !s.tx.Exited? && s.link.acked < Reach(s)
    ensures var e := AckArrives(config.session, Reach(s));
      && Enabled(config, s, e) && Step(config, s, e) == s.(link := s.link.(acked := Reach(s)))
      && Hopeful(config, Step(config, s, e), room)
  {
    var e := AckArrives(config.session, Reach(s));
    ReachIsGenuine(s);
    hide GenuineAck;
    StepKeeps(config, s, e);
    StepKeepsWindow(config, s, e);
    assert s.link.session == config.session;
    hide Hopeful, Inv, WindowInv, Reach;
    SameHope(config, s, Step(config, s, e), room);
  }

  /** Steps that neither notify nor lose anything keep what there is to hope for. */
  lemma {:induction false} SameHope(config: Config, s: State, t: State, room: nat)
    requires Hopeful(config, s, room) && Inv(config, t) && WindowInv(config, t)
    requires t.bundles == s.bundles && t.link.session == s.link.session && !s.tx.Exited? && !t.tx.Exited?
    requires Pending(t) == Pending(s) && Taken(config, t.tx, |Pending(t)|) == Taken(config, s.tx, |Pending(s)|)
    requires t.nextSeq == s.nextSeq && t.running == s.running && t.captureDone == s.captureDone
    ensures Hopeful(config, t, room)
  {
    hide Inv, WindowInv, Contiguous, Small, Pending, Taken, AckOf;
  }

  lemma {:induction false} CaptureMove(config: Config, s: State, room: nat)
    requires config.Valid() && Roomy(config, room)
    requires Pending(s) == [] && Enabled(config, s, Captured([0])) && s.tx.Idle? && s.queue == []
    ensures var t := Step(config, s, Captured([0]));
      && Pending(t) == [Nth(s.nextSeq)] && NextEnd(config, t) == NextEnd(config, s) && Sound(config, t, room)
      && t.tx == s.tx && t.bundles == s.bundles && t.link == s.link
  {
    var t := Step(config, s, Captured([0]));
    assert t.tx == s.tx && t.queue == [Nth(s.nextSeq)] && t.bundles == s.bundles && t.link == s.link;
    assert Waiting(t.queue) == t.queue;
    hide Step, Waiting;
    assert SeqAfter(s.nextSeq, 0) == s.nextSeq;
  }

  function Nth(i: uint32): Packet {
    Packet(i, if i == 0 then START else 0, [0])
  }

  /** A step that keeps hope and comes closer to a notification. */
  ghost predicate Advances(config: Config, s: State, e: Event, room: nat) {
    && Enabled(config, s, e) && !e.LinkReset?
    && var t := Step(config, s, e);
       Hopeful(config, t, room) && t.bundles == s.bundles && Distance(t) < Distance(s)
  }

  lemma {:induction false} AckAdvances(config: Config, s: State, room: nat)
    requires Hopeful(config, s, room) && !s.tx.Exited? && s.link.acked < Reach(s)
    ensures Advances(config, s, AckArrives(config.session, Reach(s)), room)
  {
    AckMove(config, s, room);
    hide Hopeful, Enabled, Step, AckOf, Pending;
  }

  lemma {:induction false} CaptureHope(config: Config, s: State, room: nat)
    requires Hopeful(config, s, room) && Pending(s) == [] && Enabled(config, s, Captured([0])) && s.tx.Idle? && s.queue == []
    ensures Hopeful(config, Step(config, s, Captured([0])), room)
  {
    var e := Captured([0]);
    CaptureMove(config, s, room);
    StepKeeps(config, s, e);
    StepKeepsWindow(config, s, e);
    hide Inv, WindowInv, Sound, NextEnd, Step, AckOf;
  }

  lemma {:induction false} CaptureAdvances(config: Config, s: State, room: nat)
    requires Hopeful(config, s, room) && Pending(s) == [] && Enabled(config, s, Captured([0])) && s.tx.Idle? && s.queue == []
    ensures Advances(config, s, Captured([0]), room)
  {
    CaptureHope(config, s, room);
    assert config.Valid() && Roomy(config, room);
    CaptureMove(config, s, room);
    hide Hopeful, Enabled, Step, AckOf, Pending, NextEnd, Sound;
  }

  lemma {:induction false} TakingHope(config: Config, s: State, e: Event, room: nat)
    requires Hopeful(config, s, room) && Enabled(config, s, e) && !s.tx.Exited?
    requires e.ReceiveFirst? || e.CollectNext? || e.CollectTimesOut?
    ensures Hopeful(config, Step(config, s, e), room)
  {
    TakingEndsSame(config, s, e);
    StepKeeps(config, s, e);
    StepKeepsWindow(config, s, e);
    var t := Step(config, s, e);
    assert t.running == s.running && t.captureDone == s.captureDone;
    hide Hopeful, Inv, WindowInv, Step, Pending, Taken;
    SameHope(config, s, t, room);
  }

  lemma {:induction false} TakingCloser(config: Config, s: State, e: Event)
    requires Inv(config, s) && Enabled(config, s, e) && Pending(s) != []
    requires e == if s.tx.Idle? then ReceiveFirst else if s.queue == [] then CollectTimesOut else CollectNext
    ensures var t := Step(config, s, e);
      t.bundles == s.bundles && t.link == s.link && Distance(t) < Distance(s)
  {
    TakingEndsSame(config, s, e);
    hide QueueInv, Conserved, Pending, Taken;
  }

  lemma {:induction false} TakingAdvances(config: Config, s: State, e: Event, room: nat)
    requires Hopeful(config, s, room) && Enabled(config, s, e) && !s.tx.Exited? && Pending(s) != []
    requires e == if s.tx.Idle? then ReceiveFirst else if s.queue == [] then CollectTimesOut else CollectNext
    ensures Advances(config, s, e, room)
  {
    assert Inv(config, s);
    hide Hopeful, Inv, Step, Enabled, Distance, Pending;
    TakingHope(config, s, e, room);
    TakingCloser(config, s, e);
  }

  lemma {:induction false} MoveAdvances(config: Config, s: State, room: nat)
    requires Hopeful(config, s, room) && !(s.tx.Sending? && s.link.acked == Reach(s))
    ensures Advances(config, s, NextMove(config, s), room)
  {
    HopefulTx(config, s, room);
    assert s.link.acked <= Reach(s) by {
      hide Inv, Beyond, Sound;
    }
    hide Hopeful, Advances, Reach, Pending;
    if s.link.acked < Reach(s) {
      AckAdvances(config, s, room);
    } else if Pending(s) == [] {
      CaptureAdvances(config, s, room);
    } else {
      TakingAdvances(config, s, NextMove(config, s), room);
    }
  }

  lemma {:induction false} LastMove(config: Config, s: State, room: nat)
    requires Hopeful(config, s, room) && s.tx.Sending? && s.link.acked == Reach(s)
    ensures var e := TrySend(Willing(config));
      Enabled(config, s, e) && Step(config, s, e).bundles != s.bundles
  {
    HopefulIsSent(config, s, room);
    SendingEnd(config, s);
    hide SendBundle, Hopeful, Inv, Reach;
    assert |Step(config, s, TrySend(Willing(config))).bundles| == |s.bundles| + 1;
  }

  lemma {:induction false} RunCons(config: Config, s: State, e: Event, rest: seq<Event>)
    requires Enabled(config, s, e) && IsRun(config, Step(config, s, e), rest)
    ensures IsRun(config, s, [e] + rest) && Run(config, s, [e] + rest) == Run(config, Step(config, s, e), rest)
  {
    hide Enabled, Step;
    assert ([e] + rest)[1..] == rest;
  }

  lemma {:induction false} Notifies(config: Config, s: State, room: nat) returns (events: seq<Event>)
    requires Hopeful(config, s, room)
    ensures IsRun(config, s, events) && NoReset(events)
    ensures Run(config, s, events).bundles != s.bundles
    decreases Distance(s)
  {
    var last := s.tx.Sending? && s.link.acked == Reach(s);
    if last {
      LastMove(config, s, room);
    } else {
      MoveAdvances(config, s, room);
    }
    hide Hopeful, Step, Enabled, Distance, Reach;
    var e, rest := if last then TrySend(Willing(config)) else NextMove(config, s), [];
    if !last {
      rest := Notifies(config, Step(config, s, e), room);
    }
    hide NextMove;
    RunCons(config, s, e, rest);
    events := [e] + rest;
  }
}
