/** What was captured is what is notified, number by number; what the queue overwrites, and what the radio loses. */
module AudioCapture {
  import opened Optional
  import opened Bytes
  import opened AudioTransport
  import opened AudioPipeline
  import opened AudioPipelineSafety
  import opened AudioDelivery

  /** The encoded frames of a run, in the order they were captured. */
  function Said(events: seq<Event>): seq<Payload> {
    if events == [] then [] else (if events[0].Captured? then [events[0].payload] else []) + Said(events[1..])
  }

  /** Packet p carries the frame its number names. */
  predicate Spoken(p: Packet, said: seq<Payload>) {
    p.seqNo < |said| && p.payload == said[p.seqNo]
  }

  /** Everything under way carries the captured frames; what waits are the latest of them, without gap. */
  ghost predicate Faithful(s: State, said: seq<Payload>) {
    && s.nextSeq == |said|
    && (forall p :: p in Trail(s) ==> Spoken(p, said))
    && Latest(Waiting(s.queue), said)
  }

  ghost predicate Latest(waiting: seq<Packet>, said: seq<Payload>) {
    && |waiting| <= |said|
    && forall i :: 0 <= i < |waiting| ==> waiting[i].seqNo == |said| - |waiting| + i
  }

  // ---- every step ----

  lemma {:induction false} CapturedIsFaithful(config: Config, s: State, said: seq<Payload>, payload: Payload)
    requires Inv(config, s) && Faithful(s, said) && Enabled(config, s, Captured(payload))
    ensures Faithful(Step(config, s, Captured(payload)), said + [payload])
  {
    var t := Step(config, s, Captured(payload));
    CapturedQueues(config, s, payload);
    hide *;
    QueuedIsFaithful(s, said, t, t.queue[|t.queue| - 1]);
  }

  lemma {:induction false} CapturedQueues(config: Config, s: State, payload: Payload)
    requires Inv(config, s) && Enabled(config, s, Captured(payload))
    ensures var t := Step(config, s, Captured(payload));
      && Waiting(s.queue) == s.queue && Waiting(t.queue) == t.queue != []
      && t.bundles == s.bundles && t.tx == s.tx && t.nextSeq == s.nextSeq + 1
      && var p := t.queue[|t.queue| - 1];
         && p.seqNo == s.nextSeq && p.payload == payload
         && t.queue == (if |s.queue| < QUEUE_DEPTH then s.queue else s.queue[1..]) + [p]
  {
    assert Waiting(s.queue) == s.queue;
    var t := Step(config, s, Captured(payload));
    assert t.queue[|t.queue| - 1] == Packet(s.nextSeq, if s.nextSeq == 0 then START else 0, payload);
    hide TxInv, Conserved;
  }

  lemma {:induction false} QueuedIsFaithful(s: State, said: seq<Payload>, t: State, p: Packet)
    requires Faithful(s, said) && p.seqNo == s.nextSeq
    requires Waiting(s.queue) == s.queue && Waiting(t.queue) == t.queue
    requires t.bundles == s.bundles && t.tx == s.tx && t.nextSeq == s.nextSeq + 1
    requires t.queue == (if |s.queue| < QUEUE_DEPTH then s.queue else s.queue[1..]) + [p]
    ensures Faithful(t, said + [p.payload])
  {
    hide Flat, Waiting, Held;
    assert Latest(t.queue, said + [p.payload]);
    hide Latest;
    forall q | q in Trail(t)
      ensures Spoken(q, said + [p.payload])
    {
      assert q == p || q in Trail(s);
    }
  }

  lemma {:induction false} TakenIsFaithful(config: Config, s: State, said: seq<Payload>, t: State)
    requires Inv(config, s) && Faithful(s, said) && s.queue != []
    requires (s.tx.Idle? && t == AfterReceiveFirst(config, s)) || (s.tx.Collecting? && t == AfterCollectNext(config, s))
    ensures Faithful(t, said)
  {
    ReceiveKeepsTrail(config, s, t);
    TakeFromQueue(s);
    hide Inv, Flat, Waiting;
  }

  /** Steps that capture nothing and take nothing from the queue. */
  lemma {:induction false} SteadyIsFaithful(s: State, said: seq<Payload>, t: State)
    requires Faithful(s, said) && t.nextSeq == s.nextSeq && Waiting(t.queue) == Waiting(s.queue)
    requires forall p :: p in Flat(t.bundles) + Held(t.tx) ==> p in Flat(s.bundles) + Held(s.tx)
    ensures Faithful(t, said)
  {
    hide Flat, Waiting, Latest, Spoken;
    forall p | p in Trail(t)
      ensures p in Trail(s)
    {
      assert p in Flat(t.bundles) + Held(t.tx) || p in Waiting(t.queue);
    }
  }

  lemma {:induction false} SentIsFaithful(config: Config, s: State, said: seq<Payload>, e: Event)
    requires Faithful(s, said) && Enabled(config, s, e) && e.TrySend?
    ensures Faithful(Step(config, s, e), said)
  {
    var t := Step(config, s, e);
    assert (s.bundles + [s.tx.bundle])[..|s.bundles|] == s.bundles;
    assert Flat(s.bundles + [s.tx.bundle]) == Flat(s.bundles) + s.tx.bundle;
    hide SendBundle, Waiting, Flat, Faithful;
    assert t.bundles == s.bundles || (t.bundles == s.bundles + [s.tx.bundle] && Held(t.tx) == []);
    assert Held(t.tx) == [] || Held(t.tx) == Held(s.tx) == s.tx.bundle;
    SteadyIsFaithful(s, said, t);
  }

  lemma {:induction false} MarkerIsFaithful(config: Config, s: State, said: seq<Payload>)
    requires Inv(config, s) && Faithful(s, said) && Enabled(config, s, CaptureTaskEnds)
    ensures Faithful(Step(config, s, CaptureTaskEnds), said)
  {
    assert Waiting(s.queue) == s.queue == Waiting(s.queue + [Marker(s.nextSeq)]);
    hide Inv, Flat, Waiting, Faithful;
    SteadyIsFaithful(s, said, Step(config, s, CaptureTaskEnds));
  }

  lemma {:induction false} StepIsFaithful(config: Config, s: State, said: seq<Payload>, e: Event)
    requires Inv(config, s) && Faithful(s, said) && Enabled(config, s, e)
    ensures Faithful(Step(config, s, e), said + if e.Captured? then [e.payload] else [])
  {
    assert said + [] == said;
    hide Faithful;
    match e
    case Captured(payload) => CapturedIsFaithful(config, s, said, payload);
    case ReceiveFirst => hide Inv; TakenIsFaithful(config, s, said, AfterReceiveFirst(config, s));
    case CollectNext => hide Inv; TakenIsFaithful(config, s, said, AfterCollectNext(config, s));
    case TrySend(_) => hide Inv, Step; SentIsFaithful(config, s, said, e);
    case CaptureTaskEnds => MarkerIsFaithful(config, s, said);
    case _ =>
      hide Inv, Flat, Waiting, SendAudio, Faithful, GenuineAck;
      SteadyIsFaithful(s, said, Step(config, s, e));
  }

  lemma {:induction false} SaidCons(said: seq<Payload>, events: seq<Event>)
    requires events != []
    ensures said + (if events[0].Captured? then [events[0].payload] else []) + Said(events[1..]) == said + Said(events)
  {
  }

  lemma {:induction false} RunIsFaithful(config: Config, s: State, said: seq<Payload>, events: seq<Event>)
    requires Inv(config, s) && Faithful(s, said) && IsRun(config, s, events)
    ensures Faithful(Run(config, s, events), said + Said(events))
    decreases events
  {
    if events == [] {
      assert said + [] == said;
    } else {
      var e := events[0];
      var now := said + if e.Captured? then [e.payload] else [];
      StepIsFaithful(config, s, said, e);
      StepKeeps(config, s, e);
      hide Step, Enabled, Inv, Faithful, Said;
      RunIsFaithful(config, Step(config, s, e), now, events[1..]);
      SaidCons(said, events);
    }
  }

  // ---- what is lost ----

  /** A captured frame is always queued; it costs the oldest waiting one its place exactly when all are taken. */
  lemma {:induction false} OverwritesIffFull(config: Config, s: State, payload: Payload)
    requires Inv(config, s) && Enabled(config, s, Captured(payload))
    ensures var t := Step(config, s, Captured(payload));
      && |Waiting(t.queue)| > 0 && Waiting(t.queue)[|Waiting(t.queue)| - 1].seqNo == s.nextSeq
      && Waiting(t.queue)[|Waiting(t.queue)| - 1].payload == payload
      && (t.overflowDropped > s.overflowDropped <==> |Waiting(s.queue)| == QUEUE_DEPTH)
      && (if |Waiting(s.queue)| == QUEUE_DEPTH then Waiting(s.queue)[1..] else Waiting(s.queue)) < Waiting(t.queue)
      && t.overflowDropped - s.overflowDropped + |Waiting(t.queue)| == |Waiting(s.queue)| + 1
  {
    assert Waiting(s.queue) == s.queue;
    var t := Step(config, s, Captured(payload));
    assert Waiting(t.queue) == t.queue;
    hide Waiting, TxInv, Conserved;
  }

  /** Attempts at the same bundle, one after the other. */
  function Tries(radios: seq<Radio>): seq<Event> {
    seq(|radios|, i requires 0 <= i < |radios| => TrySend(radios[i]))
  }

  predicate Refused(config: Config, s: State, radio: Radio)
    requires s.tx.Sending? && 0 < |s.tx.bundle| < 0x100
  {
    SendBundle(config, s.link, radio, s.tx.bundle).None?
  }

  /** A bundle is given up with the eighth refusal and not before; a refusal less and it is still there, with
      nothing counted and nothing sent. */
  lemma {:induction false} DroppedWithEighthRefusal(config: Config, s: State, radios: seq<Radio>)
    requires s.tx.Sending? && 0 < |s.tx.bundle| < 0x100 && s.tx.retries + |radios| <= MAX_RETRIES
    requires s.tx.retries < MAX_RETRIES && forall i :: 0 <= i < |radios| ==> Refused(config, s, radios[i])
    ensures IsRun(config, s, Tries(radios))
    ensures Run(config, s, Tries(radios))
         == if s.tx.retries + |radios| == MAX_RETRIES
            then s.(tx := NextRound(s.tx.end), txDropped := s.txDropped + |s.tx.bundle|)
            else s.(tx := Sending(s.tx.bundle, s.tx.retries + |radios|, s.tx.end))
    decreases radios
  {
    if radios != [] {
      var e, rest := TrySend(radios[0]), radios[1..];
      var t := Step(config, s, e);
      hide SendBundle;
      assert Tries(radios)[0] == e && Tries(radios)[1..] == Tries(rest);
      if t.tx.Sending? {
        assert t == s.(tx := Sending(s.tx.bundle, s.tx.retries + 1, s.tx.end));
        forall i | 0 <= i < |rest|
          ensures Refused(config, t, rest[i])
        {
          assert rest[i] == radios[i + 1];
        }
        hide Step, Refused;
        DroppedWithEighthRefusal(config, t, rest);
      } else {
        assert rest == [] && Tries(rest) == [];
      }
    }
  }

  /** The tries of a run that sent nothing. */
  function Refusals(config: Config, s: State, events: seq<Event>): nat
    requires IsRun(config, s, events)
    decreases events
  {
    if events == [] then 0
    else
      var t := Step(config, s, events[0]);
      (if events[0].TrySend? && t.bundles == s.bundles then 1 else 0) + Refusals(config, t, events[1..])
  }

  function RetriesOf(tx: Tx): nat {
    if tx.Sending? then tx.retries else 0
  }

  /** The packets that so many bundles can hold. */
  function Packets(config: Config, bundles: nat): nat {
    config.bundleSize * bundles
  }

  lemma {:induction false} PacketsAdd(config: Config, a: nat, b: nat)
    ensures Packets(config, a + b) == Packets(config, a) + Packets(config, b)
    ensures Packets(config, 0) == 0 && Packets(config, 1) == config.bundleSize
    ensures Packets(config, MAX_RETRIES) == MAX_RETRIES * config.bundleSize
  {
  }

  lemma {:induction false} LossNeedsRefusals(config: Config, s: State, events: seq<Event>)
    requires Inv(config, s) && IsRun(config, s, events)
    ensures var t := Run(config, s, events);
      MAX_RETRIES * (t.txDropped - s.txDropped) + Packets(config, RetriesOf(t.tx))
      <= Packets(config, RetriesOf(s.tx) + Refusals(config, s, events))
    decreases events
  {
    hide Packets, RetriesOf, Inv;
    if events != [] {
      var e, t := events[0], Step(config, s, events[0]);
      var refused := if e.TrySend? && t.bundles == s.bundles then 1 else 0;
      var rest := events[1..];
      assert Enabled(config, s, e) && IsRun(config, t, rest);
      StepKeeps(config, s, e);
      StepLoses(config, s, e);
      hide Step, Enabled;
      LossNeedsRefusals(config, t, rest);
      var n := Refusals(config, t, rest);
      assert Refusals(config, s, events) == refused + n;
      var end := Run(config, t, rest);
      assert Run(config, s, events) == end;
      LossesAdd(config, t.txDropped - s.txDropped, end.txDropped - t.txDropped,
                RetriesOf(s.tx), RetriesOf(t.tx), RetriesOf(end.tx), refused, n);
      hide *;
    }
  }

  lemma {:induction false} LossesAdd(config: Config, first: int, later: int, before: nat, middle: nat, after: nat,
                                     refused: nat, n: nat)
    requires MAX_RETRIES * first + Packets(config, middle) <= Packets(config, before + refused)
    requires MAX_RETRIES * later + Packets(config, after) <= Packets(config, middle + n)
    ensures MAX_RETRIES * (first + later) + Packets(config, after) <= Packets(config, before + (refused + n))
  {
    PacketsAdd(config, middle, n);
    PacketsAdd(config, before + refused, n);
    hide Packets;
  }

  lemma {:induction false} StepLoses(config: Config, s: State, e: Event)
    requires Inv(config, s) && Enabled(config, s, e)
    ensures var t := Step(config, s, e); var refused := if e.TrySend? && t.bundles == s.bundles then 1 else 0;
      MAX_RETRIES * (t.txDropped - s.txDropped) + Packets(config, RetriesOf(t.tx))
      <= Packets(config, RetriesOf(s.tx) + refused)
  {
    if e.TrySend? {
      assert s.tx.Sending? ==> |s.tx.bundle| <= config.bundleSize && s.tx.retries < MAX_RETRIES;
      PacketsAdd(config, RetriesOf(s.tx), 1);
      PacketsAdd(config, 0, 0);
      hide Inv, SendBundle, Packets;
    } else {
      OtherStepsLoseNothing(config, s, e);
      hide Step, Packets;
    }
  }

  lemma {:induction false} OtherStepsLoseNothing(config: Config, s: State, e: Event)
    requires Enabled(config, s, e) && !e.TrySend?
    ensures var t := Step(config, s, e);
      t.txDropped == s.txDropped && RetriesOf(t.tx) == RetriesOf(s.tx)
  {
    hide SendAudio, GenuineAck;
  }

  // ---- main results ----

  /** Over every run: the frames the radio side lost are at most a bundle for every eight refused tries. */
  lemma {:induction false} RadioLossIsBounded(config: Config, events: seq<Event>)
    requires config.Valid() && IsRun(config, Initial(config), events)
    ensures MAX_RETRIES * Run(config, Initial(config), events).txDropped
         <= Packets(config, Refusals(config, Initial(config), events))
  {
    InitiallyInv(config);
    LossNeedsRefusals(config, Initial(config), events);
    hide Run, IsRun, Refusals, Packets;
  }

  /** Over every run: every notified packet carries the very frame that was captured under its number; and
      the packets waiting in the queue are the latest ones captured, so only older ones are overwritten. */
  lemma {:induction false} NotifiedIsSaid(config: Config, events: seq<Event>)
    requires config.Valid() && IsRun(config, Initial(config), events)
    ensures var s := Run(config, Initial(config), events); var said := Said(events);
      && s.nextSeq == |said|
      && (forall i, k :: 0 <= i < |s.bundles| && 0 <= k < |s.bundles[i]| ==> Spoken(s.bundles[i][k], said))
      && Latest(Waiting(s.queue), said)
      && (forall p :: p in Waiting(s.queue) ==> Spoken(p, said))
  {
    InitiallyInv(config);
    RunKeeps(config, Initial(config), events);
    var s, said := Run(config, Initial(config), events), Said(events);
    hide Run, IsRun, Inv, Said;
    assert Faithful(Initial(config), []);
    RunIsFaithful(config, Initial(config), [], events);
    assert [] + said == said;
    AllSpoken(s, said);
  }

  lemma {:induction false} AllSpoken(s: State, said: seq<Payload>)
    requires Faithful(s, said)
    ensures forall i, k :: 0 <= i < |s.bundles| && 0 <= k < |s.bundles[i]| ==> Spoken(s.bundles[i][k], said)
    ensures forall p :: p in Waiting(s.queue) ==> Spoken(p, said)
  {
    hide Waiting, Spoken;
    forall i, k | 0 <= i < |s.bundles| && 0 <= k < |s.bundles[i]|
      ensures Spoken(s.bundles[i][k], said)
    {
      FlatInBundle(s.bundles, i, k);
      assert s.bundles[i][k] in Flat(s.bundles) && s.bundles[i][k] in Trail(s);
    }
    assert forall p :: p in Waiting(s.queue) ==> p in Trail(s);
  }
}
