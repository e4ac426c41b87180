/** What the host can rely on: order and completeness of what it receives, and the ACK window. */
module AudioDelivery {
  import opened Optional
  import opened Bytes
  import opened AudioTransport
  import opened AudioPipeline
  import opened AudioPipelineSafety
  import AudioRoundTrip
  import AudioParser

  // ---- order and conservation over every run ----

  /** Every notified bundle is a gapless stretch of the capture, bundles come in capture order, and no
      packet is notified twice. */
  lemma NotifiedInOrder(config: Config, events: seq<Event>)
    requires config.Valid() && IsRun(config, Initial(config), events)
    ensures var s := Run(config, Initial(config), events);
      && s.sentFrames == |Flat(s.bundles)|
      && (forall b :: b in s.bundles ==> 0 < |b| <= config.bundleSize && Contiguous(b))
      && (forall i, j :: 0 <= i < j < |Flat(s.bundles)| ==> Flat(s.bundles)[i].seqNo < Flat(s.bundles)[j].seqNo)
  {
    InitiallyInv(config);
    RunKeeps(config, Initial(config), events);
    var s := Run(config, Initial(config), events);
    hide Run, IsRun, QueueInv, Flat;
    assert forall i :: 0 <= i < |Flat(s.bundles)| ==> Trail(s)[i] == Flat(s.bundles)[i];
  }

  /** When the transmit task exits, every captured frame was sent, given up or overwritten, and the END
      marker carries the number of frames captured. */
  lemma AccountedAtExit(config: Config, events: seq<Event>)
    requires config.Valid() && IsRun(config, Initial(config), events)
    ensures var s := Run(config, Initial(config), events);
      s.tx.Exited? ==>
        && s.nextSeq == s.sentFrames + s.txDropped + s.overflowDropped
        && s.tx.endSeq == s.nextSeq
        && s.captureDone && s.queue == []
  {
    InitiallyInv(config);
    RunKeeps(config, Initial(config), events);
    hide Run, IsRun, Captures, Flat;
  }

  // ---- the host recovers what was sent ----

  ghost predicate IsEncodingOf(config: Config, octets: seq<byte>, packets: seq<Packet>) {
    && 0 < |packets| < 0x100
    && exists version: byte, capacity: nat ::
         Encode(version, config.session, packets[0].seqNo, 0, packets, capacity) == Wire(octets)
  }

  ghost predicate IsEndMarker(config: Config, octets: seq<byte>, endSeq: uint32) {
    || (exists capacity: nat :: Encode(V2, config.session, endSeq, END, [], capacity) == Wire(octets))
    || (exists capacity: nat :: Encode(V1, config.session, endSeq, 0, [Marker(endSeq)], capacity) == Wire(octets))
  }

  ghost predicate WireInv(config: Config, s: State) {
    && |s.wire| == |s.bundles| + (if s.tx.Exited? && s.tx.delivered then 1 else 0)
    && (forall i :: 0 <= i < |s.bundles| ==> IsEncodingOf(config, s.wire[i], s.bundles[i]))
    && (s.tx.Exited? && s.tx.delivered ==> IsEndMarker(config, s.wire[|s.bundles|], s.tx.endSeq))
    && (s.link.version == V1 || s.link.version == V2)
  }

  lemma {:induction false} HeldIsCapture(config: Config, s: State)
    requires Inv(config, s) && s.tx.Sending?
    ensures 0 < |s.tx.bundle| <= 4 && (config.version == V1 ==> |s.tx.bundle| == 1)
    ensures !HasEnd(s.tx.bundle[0].flags)
  {
    assert s.tx.bundle[0] == Trail(s)[|Flat(s.bundles)|];
    hide QueueInv, Flat, Waiting, Trail;
    assert IsCapture(s.tx.bundle[0]);
  }

  lemma {:induction false} SentIsEncoding(config: Config, s: State, radio: Radio)
    requires Inv(config, s) && s.tx.Sending?
    ensures |s.tx.bundle| < 0x100
    ensures var sent := SendBundle(config, s.link, radio, s.tx.bundle);
      sent.Some? ==> IsEncodingOf(config, sent.value, s.tx.bundle)
  {
    HeldIsCapture(config, s);
    hide Inv, Encode, HasEnd;
    var bundle := s.tx.bundle;
    var sent := SendBundle(config, s.link, radio, bundle);
    if sent.Some? {
      if config.version == V1 {
        assert bundle == [bundle[0]];
      }
      assert Encode(s.link.version, config.session, bundle[0].seqNo, 0, bundle, radio.capacity) == Wire(sent.value);
    }
  }

  lemma EndIsMarker(config: Config, s: State, radio: Radio)
    requires s.tx.Ending? && (s.link.version == V1 || s.link.version == V2)
    ensures var sent := SendAudio(config, s.link, radio, Marker(s.tx.endSeq));
      sent.Some? ==> IsEndMarker(config, sent.value, s.tx.endSeq)
  {
    hide Encode;
    var sent := SendAudio(config, s.link, radio, Marker(s.tx.endSeq));
    if sent.Some? {
      if s.link.version == V2 {
        assert Encode(V2, config.session, s.tx.endSeq, END, [], radio.capacity) == Wire(sent.value);
      } else {
        assert Encode(V1, config.session, s.tx.endSeq, 0, [Marker(s.tx.endSeq)], radio.capacity) == Wire(sent.value);
      }
    }
  }

  lemma StepKeepsWire(config: Config, s: State, e: Event)
    requires Inv(config, s) && WireInv(config, s) && Enabled(config, s, e)
    ensures WireInv(config, Step(config, s, e))
  {
    hide AfterTrySend, AfterTrySendEnd, IsEndMarker, Inv, IsEncodingOf;
    match e
    case TrySend(radio) => TrySendKeepsWire(config, s, radio);
    case TrySendEnd(radio) => TrySendEndKeepsWire(config, s, radio);
    case _ =>
  }

  lemma TrySendKeepsWire(config: Config, s: State, radio: Radio)
    requires Inv(config, s) && WireInv(config, s) && s.tx.Sending?
    ensures |s.tx.bundle| < 0x100
    ensures WireInv(config, AfterTrySend(config, s, radio))
  {
    SentIsEncoding(config, s, radio);
    hide SendBundle, IsEncodingOf, Inv;
  }

  lemma TrySendEndKeepsWire(config: Config, s: State, radio: Radio)
    requires WireInv(config, s) && s.tx.Ending?
    ensures WireInv(config, AfterTrySendEnd(config, s, radio))
  {
    EndIsMarker(config, s, radio);
    hide SendAudio, IsEndMarker, IsEncodingOf;
  }

  lemma {:induction false} RunKeepsWire(config: Config, s: State, events: seq<Event>)
    requires Inv(config, s) && WireInv(config, s) && IsRun(config, s, events)
    ensures WireInv(config, Run(config, s, events))
    decreases events
  {
    if events != [] {
      StepKeeps(config, s, events[0]);
      StepKeepsWire(config, s, events[0]);
      hide Step, Enabled, Inv, WireInv;
      RunKeepsWire(config, Step(config, s, events[0]), events[1..]);
    }
  }

  /** The frames a host reads from one notification are the packets of the bundle, marks included. */
  ghost predicate HostReads(config: Config, octets: seq<byte>, bundle: seq<Packet>) {
    var parsed := AudioParser.ParseBatch(octets);
    parsed.Some? && FramesAre(config, parsed.value, bundle)
  }

  ghost predicate FramesAre(config: Config, b: Batch, bundle: seq<Packet>) {
    && b.session == config.session
    && |b.frames| == |bundle|
    && forall i :: 0 <= i < |bundle| ==>
         b.frames[i] == Frame(config.session, bundle[i].seqNo, bundle[i].flags, bundle[i].payload)
  }

  /** A notification is read as its bundle, unless the bundle holds an empty packet and is refused. */
  ghost predicate Arrives(config: Config, octets: seq<byte>, bundle: seq<Packet>) {
    || HostReads(config, octets, bundle)
    || (!AudioRoundTrip.NoneEmpty(bundle) && AudioParser.ParseBatch(octets).None?)
  }

  /** The notifications of a session, parsed in order, are exactly the notified captures, only bundles with
      an empty packet being refused, followed by an END with the number of captured frames if it was
      delivered. */
  lemma HostRecoversCapture(config: Config, events: seq<Event>)
    requires config.Valid() && IsRun(config, Initial(config), events)
    ensures WireIsRead(config, Run(config, Initial(config), events))
  {
    InitiallyInv(config);
    RunKeeps(config, Initial(config), events);
    RunKeepsWire(config, Initial(config), events);
    hide Run, IsRun, Inv, WireInv, WireIsRead;
    StateIsRead(config, Run(config, Initial(config), events));
  }

  ghost predicate WireIsRead(config: Config, s: State) {
    && |s.wire| == |s.bundles| + (if s.tx.Exited? && s.tx.delivered then 1 else 0)
    && (forall i :: 0 <= i < |s.bundles| ==> Arrives(config, s.wire[i], s.bundles[i]))
    && (s.tx.Exited? && s.tx.delivered ==> HostReads(config, s.wire[|s.bundles|], [Marker(s.nextSeq)]))
  }

  lemma StateIsRead(config: Config, s: State)
    requires Inv(config, s) && WireInv(config, s)
    ensures WireIsRead(config, s)
  {
    hide HostReads, Arrives, IsEncodingOf, IsEndMarker, TxInv, Conserved;
    forall i | 0 <= i < |s.bundles|
      ensures Arrives(config, s.wire[i], s.bundles[i])
    {
      BundleIsCapture(config, s, i);
      hide Inv, WireInv;
      BundleIsRead(config, s.wire[i], s.bundles[i]);
    }
    if s.tx.Exited? && s.tx.delivered {
      EndIsRead(config, s.wire[|s.bundles|], s.nextSeq);
    }
  }

  /** What can be in a notified bundle: START only on capture number 0, hence only in first place. */
  ghost predicate CaptureBundle(bundle: seq<Packet>) {
    && bundle != []
    && (forall i :: 0 <= i < |bundle| ==> IsCapture(bundle[i]))
    && (forall i :: 0 < i < |bundle| ==> bundle[i].seqNo > 0)
  }

  lemma BundleIsCapture(config: Config, s: State, i: nat)
    requires Inv(config, s) && i < |s.bundles|
    ensures CaptureBundle(s.bundles[i])
  {
    NotifiedAreCaptures(s);
    assert s.bundles[i] in s.bundles;
    hide Inv;
    forall k | 0 <= k < |s.bundles[i]|
      ensures IsCapture(s.bundles[i][k]) && (k > 0 ==> s.bundles[i][k].seqNo > 0)
    {
      FlatInBundle(s.bundles, i, 0);
      FlatInBundle(s.bundles, i, k);
      hide Flat, IsCapture;
    }
  }

  lemma BundleIsRead(config: Config, octets: seq<byte>, bundle: seq<Packet>)
    requires IsEncodingOf(config, octets, bundle) && CaptureBundle(bundle)
    ensures Arrives(config, octets, bundle)
  {
    var version: byte, capacity: nat :|
      Encode(version, config.session, bundle[0].seqNo, 0, bundle, capacity) == Wire(octets);
    EncodingIsRead(config, version, bundle, capacity, octets);
  }

  lemma EncodingIsRead(config: Config, version: byte, bundle: seq<Packet>, capacity: nat, octets: seq<byte>)
    requires CaptureBundle(bundle) && |bundle| < 0x100
    requires Encode(version, config.session, bundle[0].seqNo, 0, bundle, capacity) == Wire(octets)
    ensures Arrives(config, octets, bundle)
  {
    AudioRoundTrip.EncodeForm(version, config.session, bundle[0].seqNo, 0, bundle, capacity);
    AudioRoundTrip.ParseUndoesEncode(version, config.session, bundle[0].seqNo, 0, bundle, capacity);
    if AudioParser.ParseBatch(octets).None? {
      assert !AudioRoundTrip.NoneEmpty(bundle);
      return;
    }
    hide Encode, Header, Body, AudioParser.ParseBatch, AudioRoundTrip.Carries, AudioRoundTrip.NoneEmpty, UnionFlags;
    var parsed := AudioParser.ParseBatch(octets).value;
    if version == V1 {
      UnionOfOne(bundle);
      CarriedByV1(config, parsed, bundle);
    } else {
      CarriedByV2(config, parsed, bundle);
    }
  }

  lemma CarriedByV1(config: Config, b: Batch, bundle: seq<Packet>)
    requires |bundle| == 1
    requires AudioRoundTrip.Carries(b, V1, config.session, bundle[0].seqNo, bundle[0].flags, bundle)
    ensures FramesAre(config, b, bundle)
  {
  }

  lemma {:induction false} CarriedByV2(config: Config, b: Batch, bundle: seq<Packet>)
    requires CaptureBundle(bundle)
    requires AudioRoundTrip.Carries(b, V2, config.session, bundle[0].seqNo, UnionFlags(0, bundle), bundle)
    ensures FramesAre(config, b, bundle)
  {
    hide UnionFlags, AudioParser.FrameFlags;
    assert AudioRoundTrip.MarksOnlyAtEnds(0, bundle);
    AudioRoundTrip.FlagsSurviveIff(0, bundle);
  }

  lemma UnionOfOne(packets: seq<Packet>)
    requires |packets| == 1
    ensures UnionFlags(0, packets) == packets[0].flags
  {
    EightBits();
    ZeroWithOr(packets[0].flags, 8);
    assert packets[1..] == [];
  }

  lemma EndIsRead(config: Config, octets: seq<byte>, endSeq: uint32)
    requires IsEndMarker(config, octets, endSeq)
    ensures HostReads(config, octets, [Marker(endSeq)])
  {
    if capacity: nat :| Encode(V2, config.session, endSeq, END, [], capacity) == Wire(octets) {
      AudioRoundTrip.ParseUndoesEncode(V2, config.session, endSeq, END, [], capacity);
      hide Encode, AudioParser.ParseBatch;
      assert AudioRoundTrip.Parsable(V2, END, []);
    } else {
      var capacity: nat :| Encode(V1, config.session, endSeq, 0, [Marker(endSeq)], capacity) == Wire(octets);
      AudioRoundTrip.ParseUndoesEncode(V1, config.session, endSeq, 0, [Marker(endSeq)], capacity);
      UnionOfOne([Marker(endSeq)]);
      hide Encode, AudioParser.ParseBatch;
    }
  }

  // ---- the acknowledgement on its way back ----

  /** What a host that read a v2 bundle acknowledges is the number after the bundle's last packet. */
  lemma {:induction false} HostAcknowledgesBundle(config: Config, bundle: seq<Packet>, capacity: nat, octets: seq<byte>)
    requires CaptureBundle(bundle) && Contiguous(bundle) && |bundle| < 0x100 && AudioRoundTrip.NoneEmpty(bundle)
    requires Encode(V2, config.session, bundle[0].seqNo, 0, bundle, capacity) == Wire(octets)
    ensures var parsed := AudioParser.ParseBatch(octets);
      parsed.Some? && parsed.value.session == config.session && parsed.value.AcknowledgedNextSeq() == AckOf(bundle)
  {
    AudioRoundTrip.ParseUndoesEncode(V2, config.session, bundle[0].seqNo, 0, bundle, capacity);
    hide Encode, AudioParser.ParseBatch, AudioRoundTrip.NoneEmpty, UnionFlags;
    var last := bundle[|bundle| - 1];
    assert last.seqNo == SeqAfter(bundle[0].seqNo, |bundle| - 1);
    AfterAfter(bundle[0].seqNo, |bundle| - 1);
  }

  lemma {:induction false} AfterAfter(first: uint32, steps: nat)
    ensures SeqAfter(SeqAfter(first, steps), 1) == SeqAfter(first, steps + 1)
  {
  }

  /** What a host that read the v2 end marker acknowledges is the marker's own number. */
  lemma {:induction false} HostAcknowledgesEnd(config: Config, endSeq: uint32, capacity: nat, octets: seq<byte>)
    requires Encode(V2, config.session, endSeq, END, [], capacity) == Wire(octets)
    ensures var parsed := AudioParser.ParseBatch(octets);
      parsed.Some? && parsed.value.session == config.session && parsed.value.AcknowledgedNextSeq() == endSeq
  {
    AudioRoundTrip.ParseUndoesEncode(V2, config.session, endSeq, END, [], capacity);
    hide Encode, AudioParser.ParseBatch;
    assert AudioRoundTrip.Parsable(V2, END, []);
  }

  const ACK_TYPE: byte := 2
  const ACK_SIZE: nat := 12

  /** The hosts' acknowledgement frame. */
  function AckPayload(session: uint32, nextSeq: uint32): (octets: seq<byte>)
    ensures |octets| == ACK_SIZE
  {
    [V2, ACK_TYPE] + Le(ACK_SIZE, 2) + Le(session, 4) + Le(nextSeq, 4)
  }

  /** The device's reading of a control write: an acknowledgement, or something else. */
  function ReadAck(raw: seq<byte>): Option<(uint32, uint32)> {
    if |raw| == ACK_SIZE && raw[0] == V2 && raw[1] == ACK_TYPE && ReadLe16(raw[2..4]) == ACK_SIZE
    then Some((ReadLe32(raw[4..8]), ReadLe32(raw[8..12]))) else None
  }

  /** The device reads back what a host acknowledges, and takes nothing else for an acknowledgement. */
  lemma {:induction false} AckReadsBack(session: uint32, nextSeq: uint32, raw: seq<byte>)
    ensures ReadAck(raw) == Some((session, nextSeq)) <==> raw == AckPayload(session, nextSeq)
  {
    var sent := AckPayload(session, nextSeq);
    ReadOfLe16(ACK_SIZE);
    ReadOfLe32(session);
    ReadOfLe32(nextSeq);
    if |raw| == ACK_SIZE {
      LeOfRead(raw[2..4]);
      LeOfRead(raw[4..8]);
      LeOfRead(raw[8..12]);
    }
    hide Le, ReadLe;
    AckSlices([V2, ACK_TYPE], Le(ACK_SIZE, 2), Le(session, 4), Le(nextSeq, 4));
    if ReadAck(raw) == Some((session, nextSeq)) {
      assert raw == [raw[0], raw[1]] + raw[2..4] + raw[4..8] + raw[8..12];
    }
  }

  lemma {:induction false} AckSlices(a: seq<byte>, b: seq<byte>, c: seq<byte>, d: seq<byte>)
    requires |a| == 2 && |b| == 2 && |c| == 4 && |d| == 4
    ensures var w := a + b + c + d;
      w[0] == a[0] && w[1] == a[1] && w[2..4] == b && w[4..8] == c && w[8..12] == d
  {
  }
}
