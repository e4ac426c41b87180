/**
 What every interleaving of capture, transmission and acknowledgement keeps.
 */
module AudioPipelineSafety {
  import opened Optional
  import opened Bytes
  import opened AudioTransport
  import opened AudioPipeline
  import AudioRoundTrip

  // ---- where captured packets are ----

  function Flat(bundles: seq<seq<Packet>>): seq<Packet> {
    if bundles == [] then [] else Flat(bundles[..|bundles| - 1]) + bundles[|bundles| - 1]
  }

  function Held(tx: Tx): seq<Packet> {
    if tx.Collecting? || tx.Sending? then tx.bundle else []
  }

  /** The queue without the END marker. */
  function Waiting(queue: seq<Packet>): seq<Packet> {
    if queue != [] && IsMarker(queue[|queue| - 1]) then queue[..|queue| - 1] else queue
  }

  /** Notified, held and waiting packets, oldest first. */
  function Trail(s: State): seq<Packet> {
    Flat(s.bundles) + Held(s.tx) + Waiting(s.queue)
  }

  ghost predicate Captures(packets: seq<Packet>, bound: nat) {
    && (forall i, j :: 0 <= i < j < |packets| ==> packets[i].seqNo < packets[j].seqNo)
    && (forall i :: 0 <= i < |packets| ==> IsCapture(packets[i]) && packets[i].seqNo < bound)
  }

  predicate IsCapture(p: Packet) {
    p.flags == if p.seqNo == 0 then START else 0
  }

  predicate Contiguous(bundle: seq<Packet>) {
    forall i :: 0 <= i < |bundle| ==> bundle[i].seqNo == SeqAfter(bundle[0].seqNo, i)
  }

  function EndOf(tx: Tx): Option<uint32> {
    match tx
    case Sending(_, _, end) => end
    case Ending(endSeq, _) => Some(endSeq)
    case Exited(endSeq, _) => Some(endSeq)
    case _ => None
  }

  ghost predicate QueueInv(s: State) {
    && |s.queue| <= QUEUE_DEPTH
    && (forall i :: 0 <= i < |s.queue| && IsMarker(s.queue[i]) ==>
          i == |s.queue| - 1 && s.captureDone && s.queue[i].seqNo == s.nextSeq)
    && (s.captureDone ==> !s.running)
    && (s.captureDone <==> EndOf(s.tx).Some? || (s.queue != [] && IsMarker(s.queue[|s.queue| - 1])))
    && (EndOf(s.tx).Some? ==> s.queue == [] && EndOf(s.tx).value == s.nextSeq)
  }

  ghost predicate TxInv(config: Config, s: State) {
    && config.Valid()
    && (s.tx.Collecting? ==> 0 < |s.tx.bundle| < config.bundleSize)
    && (s.tx.Sending? ==> 0 < |s.tx.bundle| <= config.bundleSize && s.tx.retries < MAX_RETRIES)
    && (forall b :: b in s.bundles ==> 0 < |b| <= config.bundleSize && Contiguous(b))
  }

  /** Nothing is lost silently: every captured packet is notified, held, waiting or counted. */
  ghost predicate Conserved(s: State) {
    && Captures(Trail(s), s.nextSeq)
    && s.sentFrames == |Flat(s.bundles)|
    && s.sentFrames + s.txDropped + s.overflowDropped + |Held(s.tx)| + |Waiting(s.queue)| == s.nextSeq
  }

  ghost predicate Inv(config: Config, s: State) {
    QueueInv(s) && TxInv(config, s) && Conserved(s)
  }

  // ---- flattened bundles ----

  lemma {:induction false} FlatInBundle(bundles: seq<seq<Packet>>, i: nat, k: nat)
    requires i < |bundles| && k < |bundles[i]|
    ensures |Flat(bundles[..i])| + |bundles[i]| <= |Flat(bundles)|
    ensures Flat(bundles)[|Flat(bundles[..i])| + k] == bundles[i][k]
  {
    var last := |bundles| - 1;
    if i < last {
      FlatInBundle(bundles[..last], i, k);
      assert bundles[..last][..i] == bundles[..i];
    }
  }

  // ---- ascending trails ----

  lemma CapturesAppend(packets: seq<Packet>, bound: nat, p: Packet)
    requires Captures(packets, bound) && p.seqNo == bound && IsCapture(p)
    ensures Captures(packets + [p], bound + 1)
  {
  }

  lemma CapturesWithout(a: seq<Packet>, b: seq<Packet>, c: seq<Packet>, bound: nat)
    requires Captures(a + b + c, bound)
    ensures Captures(a + c, bound)
  {
    var whole, part := a + b + c, a + c;
    forall i | 0 <= i < |part|
      ensures part[i] == whole[if i < |a| then i else i + |b|]
    {
    }
  }

  lemma {:induction false} CapturesPrefix(front: seq<Packet>, back: seq<Packet>, bound: nat)
    requires Captures(front + back, bound)
    ensures Captures(front, bound)
  {
    assert forall i :: 0 <= i < |front| ==> (front + back)[i] == front[i];
  }

  lemma {:induction false} NotifiedAreCaptures(s: State)
    requires Conserved(s)
    ensures Captures(Flat(s.bundles), s.nextSeq)
  {
    hide Captures, Flat, Held, Waiting;
    CapturesPrefix(Flat(s.bundles) + Held(s.tx), Waiting(s.queue), s.nextSeq);
    CapturesPrefix(Flat(s.bundles), Held(s.tx), s.nextSeq);
  }

  // ---- each step ----

  lemma InitiallyInv(config: Config)
    requires config.Valid()
    ensures Inv(config, Initial(config))
  {
  }

  lemma CapturedKeeps(config: Config, s: State, payload: Payload)
    requires Inv(config, s) && Enabled(config, s, Captured(payload))
    ensures Inv(config, Step(config, s, Captured(payload)))
  {
    var t := Step(config, s, Captured(payload));
    assert QueueInv(t);
    hide QueueInv;
    CapturedConserves(s, t, Packet(s.nextSeq, if s.nextSeq == 0 then START else 0, payload));
  }

  lemma CapturedConserves(s: State, t: State, p: Packet)
    requires Conserved(s) && p.seqNo == s.nextSeq && IsCapture(p) && s.nextSeq + 1 < TWO_TO_THE_32
    requires Waiting(s.queue) == s.queue && |s.queue| <= QUEUE_DEPTH
    requires t == if |s.queue| < QUEUE_DEPTH
                  then s.(queue := s.queue + [p], nextSeq := s.nextSeq + 1)
                  else s.(queue := s.queue[1..] + [p], nextSeq := s.nextSeq + 1,
                          overflowDropped := s.overflowDropped + 1)
    ensures Conserved(t)
  {
    assert Waiting(t.queue) == t.queue;
    hide Captures, Waiting, Flat;
    if |s.queue| < QUEUE_DEPTH {
      CapturesAppend(Trail(s), s.nextSeq, p);
      TrailAppend(Flat(s.bundles) + Held(s.tx), s.queue, p);
    } else {
      OverwritingCaptures(Flat(s.bundles) + Held(s.tx), s.queue, s.nextSeq, p);
    }
  }

  lemma TrailAppend(front: seq<Packet>, queue: seq<Packet>, p: Packet)
    ensures front + queue + [p] == front + (queue + [p])
  {
  }

  lemma OverwritingCaptures(front: seq<Packet>, queue: seq<Packet>, bound: nat, p: Packet)
    requires queue != [] && Captures(front + queue, bound) && p.seqNo == bound && IsCapture(p)
    ensures Captures(front + (queue[1..] + [p]), bound + 1)
  {
    hide Captures;
    assert queue == [queue[0]] + queue[1..];
    assert front + [queue[0]] + queue[1..] == front + queue;
    CapturesWithout(front, [queue[0]], queue[1..], bound);
    CapturesAppend(front + queue[1..], bound, p);
    TrailAppend(front, queue[1..], p);
  }

  lemma CaptureTaskEndsKeeps(config: Config, s: State)
    requires Inv(config, s) && Enabled(config, s, CaptureTaskEnds)
    ensures Inv(config, Step(config, s, CaptureTaskEnds))
  {
    hide Captures, Flat;
    assert Waiting(s.queue + [Marker(s.nextSeq)]) == s.queue;
  }

  lemma TakeFromQueue(s: State)
    requires QueueInv(s) && s.queue != []
    ensures IsMarker(s.queue[0]) ==> |s.queue| == 1 && Waiting(s.queue) == [] && s.queue[1..] == []
    ensures !IsMarker(s.queue[0]) ==> Waiting(s.queue) == [s.queue[0]] + Waiting(s.queue[1..])
  {
    var first, rest := s.queue[0], s.queue[1..];
    if IsMarker(first) {
      assert |s.queue| == 1;
    } else {
      assert s.queue == [first] + rest;
      hide QueueInv, IsMarker;
      WaitingBehind(first, rest);
    }
  }

  lemma WaitingBehind(first: Packet, rest: seq<Packet>)
    requires !IsMarker(first)
    ensures Waiting([first] + rest) == [first] + Waiting(rest)
  {
    var queue := [first] + rest;
    if rest == [] {
      assert queue == [first] && Waiting(rest) == [];
    } else {
      assert queue[|queue| - 1] == rest[|rest| - 1];
      assert queue[..|queue| - 1] == [first] + rest[..|rest| - 1];
    }
  }

  lemma ReceiveKeeps(config: Config, s: State, t: State)
    requires Inv(config, s) && s.queue != []
    requires (s.tx.Idle? && t == AfterReceiveFirst(config, s)) || (s.tx.Collecting? && t == AfterCollectNext(config, s))
    ensures Inv(config, t)
  {
    ReceiveKeepsQueue(config, s, t);
    ReceiveKeepsTrail(config, s, t);
    hide Conserved, QueueInv;
  }

  lemma ReceiveKeepsTrail(config: Config, s: State, t: State)
    requires QueueInv(s) && s.queue != []
    requires (s.tx.Idle? && t == AfterReceiveFirst(config, s)) || (s.tx.Collecting? && t == AfterCollectNext(config, s))
    ensures Trail(t) == Trail(s)
    ensures |Held(t.tx)| + |Waiting(t.queue)| == |Held(s.tx)| + |Waiting(s.queue)|
  {
    TakeFromQueue(s);
    hide QueueInv, Flat, Waiting;
    if IsMarker(s.queue[0]) {
      assert Held(t.tx) == Held(s.tx);
    } else {
      assert Held(t.tx) == Held(s.tx) + [s.queue[0]];
      Regroup(Flat(s.bundles), Held(s.tx), [s.queue[0]], Waiting(t.queue));
    }
  }

  lemma Regroup<T>(a: seq<T>, b: seq<T>, c: seq<T>, d: seq<T>)
    ensures a + (b + c) + d == a + b + (c + d)
  {
  }

  lemma ReceiveKeepsQueue(config: Config, s: State, t: State)
    requires QueueInv(s) && s.queue != []
    requires (s.tx.Idle? && t == AfterReceiveFirst(config, s)) || (s.tx.Collecting? && t == AfterCollectNext(config, s))
    ensures QueueInv(t)
  {
    assert forall i :: 0 <= i < |t.queue| ==> t.queue[i] == s.queue[i + 1];
  }

  lemma SentIsContiguous(config: Config, s: State, radio: Radio)
    requires TxInv(config, s) && s.tx.Sending?
    requires SendBundle(config, s.link, radio, s.tx.bundle).Some?
    ensures Contiguous(s.tx.bundle)
  {
    hide Body, Header, UnionFlags;
    var bundle := s.tx.bundle;
    if config.version == V2 {
      AudioRoundTrip.EncodeForm(s.link.version, config.session, bundle[0].seqNo, 0, bundle, radio.capacity);
    }
  }

  lemma DeliveredKeeps(config: Config, s: State, octets: seq<byte>)
    requires Inv(config, s) && s.tx.Sending? && Contiguous(s.tx.bundle)
    ensures Inv(config, Delivered(s, octets))
  {
    LeavingSendingKeepsQueue(s, Delivered(s, octets));
    DeliveredConserves(s, octets);
    hide QueueInv, Conserved;
  }

  lemma AbandonedKeeps(config: Config, s: State)
    requires Inv(config, s) && s.tx.Sending?
    ensures Inv(config, Abandoned(s))
  {
    LeavingSendingKeepsQueue(s, Abandoned(s));
    AbandonedConserves(s);
    hide QueueInv, Conserved;
  }

  lemma LeavingSendingKeepsQueue(s: State, t: State)
    requires QueueInv(s) && s.tx.Sending? && t.tx == NextRound(s.tx.end)
    requires t.queue == s.queue && t.captureDone == s.captureDone && t.running == s.running && t.nextSeq == s.nextSeq
    ensures QueueInv(t)
  {
  }

  lemma DeliveredConserves(s: State, octets: seq<byte>)
    requires Conserved(s) && s.tx.Sending?
    ensures Conserved(Delivered(s, octets))
  {
    var t := Delivered(s, octets);
    hide Captures, Flat, Waiting;
    assert Trail(t) == Trail(s);
  }

  lemma AbandonedConserves(s: State)
    requires Conserved(s) && s.tx.Sending?
    ensures Conserved(Abandoned(s))
  {
    var t := Abandoned(s);
    hide Captures, Flat, Waiting;
    CapturesWithout(Flat(s.bundles), s.tx.bundle, Waiting(s.queue), s.nextSeq);
    assert Trail(t) == Flat(s.bundles) + Waiting(s.queue);
  }

  lemma RetriedKeeps(config: Config, s: State, t: State)
    requires Inv(config, s) && s.tx.Sending? && s.tx.retries + 1 < MAX_RETRIES
    requires t == s.(tx := Sending(s.tx.bundle, s.tx.retries + 1, s.tx.end))
    ensures Inv(config, t)
  {
    hide Captures, Flat, Waiting;
    assert Trail(t) == Trail(s);
  }

  lemma TrySendKeeps(config: Config, s: State, radio: Radio)
    requires Inv(config, s) && s.tx.Sending?
    ensures |s.tx.bundle| < 0x100
    ensures Inv(config, AfterTrySend(config, s, radio))
  {
    if SendBundle(config, s.link, radio, s.tx.bundle).Some? {
      SentIsContiguous(config, s, radio);
      hide SendBundle, Inv;
      DeliveredKeeps(config, s, SendBundle(config, s.link, radio, s.tx.bundle).value);
    } else if s.tx.retries + 1 >= MAX_RETRIES {
      hide SendBundle, Inv;
      AbandonedKeeps(config, s);
    } else {
      hide SendBundle, Inv;
      RetriedKeeps(config, s, AfterTrySend(config, s, radio));
    }
  }

  lemma QuietStepKeeps(config: Config, s: State, e: Event)
    requires Inv(config, s) && Enabled(config, s, e)
    requires e.StopRequested? || e.CollectTimesOut? || e.TrySendEnd? || e.AckArrives? || e.LinkReset?
    ensures Inv(config, Step(config, s, e))
  {
    hide SendAudio, Captures, Flat, Waiting, IsMarker;
    var t := Step(config, s, e);
    assert Trail(t) == Trail(s);
  }

  lemma StepKeeps(config: Config, s: State, e: Event)
    requires Inv(config, s) && Enabled(config, s, e)
    ensures Inv(config, Step(config, s, e))
  {
    hide Inv, AfterTrySend, AfterReceiveFirst, AfterCollectNext;
    match e
    case Captured(payload) => CapturedKeeps(config, s, payload);
    case CaptureTaskEnds => CaptureTaskEndsKeeps(config, s);
    case ReceiveFirst => ReceiveKeeps(config, s, AfterReceiveFirst(config, s));
    case CollectNext => ReceiveKeeps(config, s, AfterCollectNext(config, s));
    case TrySend(radio) => TrySendKeeps(config, s, radio);
    case _ => QuietStepKeeps(config, s, e);
  }

  lemma {:induction false} RunKeeps(config: Config, s: State, events: seq<Event>)
    requires Inv(config, s) && IsRun(config, s, events)
    ensures Inv(config, Run(config, s, events))
    decreases events
  {
    if events != [] {
      StepKeeps(config, s, events[0]);
      hide Step, Enabled, Inv;
      RunKeeps(config, Step(config, s, events[0]), events[1..]);
    }
  }
}
