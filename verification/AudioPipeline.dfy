/**
 The firmware's capture-to-radio pipeline as a state machine: the encoder task fills a bounded queue
 and overwrites its oldest packet when full; the transmit task bundles packets, waits for the ACK
 window and notifies; the radio side keeps the session's cumulative acknowledgement.
 Every step below is one event of one firmware task, so a run is any interleaving of them.
 */
module AudioPipeline {
  import opened Optional
  import opened Bytes
  import opened AudioTransport

  const QUEUE_DEPTH: nat := 24
  const MAX_RETRIES: nat := 8

  datatype Config = Config(version: byte, bundleSize: nat, maxInflight: nat, session: uint32,
                           frameBuffer: nat)
  {
    predicate Valid() {
      && (version == V1 || version == V2)
      && 1 <= bundleSize <= 4
      && (version == V1 ==> bundleSize == 1)
      && (version == V2 ==> maxInflight == 2 * bundleSize)
      && session != 0
    }
  }

  /** What the transmit loop is doing; end is the number of the END marker once it was seen. */
  datatype Tx =
    | Idle
    | Collecting(bundle: seq<Packet>)
    | Sending(bundle: seq<Packet>, retries: nat, end: Option<uint32>)
    | Ending(endSeq: uint32, retries: nat)
    | Exited(endSeq: uint32, delivered: bool)

  /** The radio side: transport version, session under acknowledgement, cumulative ACK. */
  datatype Link = Link(version: byte, session: uint32, acked: uint32)

  datatype State = State(
    running: bool,
    captureDone: bool,
    nextSeq: uint32,
    queue: seq<Packet>,
    tx: Tx,
    sentFrames: nat,
    txDropped: nat,
    overflowDropped: nat,
    link: Link,
    bundles: seq<seq<Packet>>,
    wire: seq<seq<byte>>)

  /** What the radio answers to one transmission attempt. */
  datatype Radio = Radio(ready: bool, capacity: nat, accepts: bool)

  datatype Event =
    | Captured(payload: Payload)
    | StopRequested
    | CaptureTaskEnds
    | ReceiveFirst
    | CollectNext
    | CollectTimesOut
    | TrySend(radio: Radio)
    | TrySendEnd(radio: Radio)
    | AckArrives(session: uint32, nextSeq: uint32)
    | LinkReset(version: byte)

  // ---- the radio side ----

  function AcceptAck(link: Link, session: uint32, nextSeq: uint32): Link {
    if session == link.session && nextSeq >= link.acked then link.(acked := nextSeq) else link
  }

  /** The verdict of the window wait, acknowledgements having come or not. */
  predicate WindowOpen(config: Config, link: Link, nextSeq: uint32) {
    || link.version < V2
    || (config.session == link.session
        && (link.acked >= nextSeq || nextSeq - link.acked <= config.maxInflight))
  }

  /** The notification handed to the radio, when it takes one. */
  function SendPackets(config: Config, link: Link, radio: Radio, firstSeq: uint32, flags: byte,
                       packets: seq<Packet>): Option<seq<byte>>
    requires |packets| < 0x100
  {
    if !radio.ready || radio.capacity > config.frameBuffer then None
    else
      match Encode(link.version, config.session, firstSeq, flags, packets, radio.capacity)
      case Rejected(_) => None
      case Wire(octets) => if radio.accepts then Some(octets) else None
  }

  /** A lone packet; under v2 an empty END packet becomes the packet-less end marker. */
  function SendAudio(config: Config, link: Link, radio: Radio, packet: Packet): Option<seq<byte>> {
    if link.version == V2 && packet.payload == [] && HasEnd(packet.flags)
    then SendPackets(config, link, radio, packet.seqNo, packet.flags, [])
    else SendPackets(config, link, radio, packet.seqNo, 0, [packet])
  }

  function SendBundle(config: Config, link: Link, radio: Radio, bundle: seq<Packet>): Option<seq<byte>>
    requires 0 < |bundle| < 0x100
  {
    if config.version == V1 then SendAudio(config, link, radio, bundle[0])
    else if link.version == V2 && !radio.ready then None
    else if !WindowOpen(config, link, SeqAfter(bundle[|bundle| - 1].seqNo, 1)) then None
    else SendPackets(config, link, radio, bundle[0].seqNo, 0, bundle)
  }

  // ---- the steps ----

  /** The transmit loop recognises the END marker by its form. */
  predicate IsMarker(p: Packet) {
    p.flags == END && p.payload == []
  }

  function Marker(seqNo: uint32): Packet {
    Packet(seqNo, END, [])
  }

  function Initial(config: Config): State {
    State(true, false, 0, [], Idle, 0, 0, 0, Link(config.version, config.session, 0), [], [])
  }

  function AfterCapture(s: State, payload: Payload): State
    requires s.nextSeq + 1 < TWO_TO_THE_32
  {
    var packet := Packet(s.nextSeq, if s.nextSeq == 0 then START else 0, payload);
    if |s.queue| < QUEUE_DEPTH
    then s.(queue := s.queue + [packet], nextSeq := s.nextSeq + 1)
    else s.(queue := s.queue[1..] + [packet], nextSeq := s.nextSeq + 1,
            overflowDropped := s.overflowDropped + 1)
  }

  /** After a bundle is sent or given up, the loop goes round or, having seen the marker, ends. */
  function NextRound(end: Option<uint32>): Tx {
    if end.None? then Idle else Ending(end.value, 0)
  }

  function Collected(config: Config, bundle: seq<Packet>): Tx {
    if |bundle| < config.bundleSize then Collecting(bundle) else Sending(bundle, 0, None)
  }

  predicate Enabled(config: Config, s: State, e: Event) {
    match e
    case Captured(payload) => s.running && !s.captureDone && s.nextSeq + 1 < TWO_TO_THE_32
    case StopRequested => true
    case CaptureTaskEnds => !s.running && !s.captureDone && |s.queue| < QUEUE_DEPTH
    case ReceiveFirst => s.tx.Idle? && s.queue != []
    case CollectNext => s.tx.Collecting? && s.queue != []
    case CollectTimesOut => s.tx.Collecting? && s.queue == []
    case TrySend(_) => s.tx.Sending? && 0 < |s.tx.bundle| < 0x100
    case TrySendEnd(_) => s.tx.Ending?
    case AckArrives(session, nextSeq) => session == config.session ==> GenuineAck(s, nextSeq)
    case LinkReset(version) => version == V1 || version == V2
  }

  /** The host acknowledges what was notified: a bundle by the number after its last packet, the end
      marker by its own number. Acknowledgements may be lost, repeated or late. */
  predicate GenuineAck(s: State, nextSeq: uint32) {
    || (exists i :: 0 <= i < |s.bundles| && s.bundles[i] != [] && nextSeq == AckOf(s.bundles[i]))
    || (s.tx.Exited? && s.tx.delivered && nextSeq == s.tx.endSeq)
  }

  function AckOf(bundle: seq<Packet>): uint32
    requires bundle != []
  {
    SeqAfter(bundle[|bundle| - 1].seqNo, 1)
  }

  function Step(config: Config, s: State, e: Event): State
    requires Enabled(config, s, e)
  {
    match e
    case Captured(payload) => AfterCapture(s, payload)
    case StopRequested => s.(running := false)
    case CaptureTaskEnds => s.(queue := s.queue + [Marker(s.nextSeq)], captureDone := true)
    case ReceiveFirst => AfterReceiveFirst(config, s)
    case CollectNext => AfterCollectNext(config, s)
    case CollectTimesOut => s.(tx := Sending(s.tx.bundle, 0, None))
    case TrySend(radio) => AfterTrySend(config, s, radio)
    case TrySendEnd(radio) => AfterTrySendEnd(config, s, radio)
    case AckArrives(session, nextSeq) => s.(link := AcceptAck(s.link, session, nextSeq))
    case LinkReset(version) => s.(link := Link(version, 0, 0))
  }

  function AfterReceiveFirst(config: Config, s: State): State
    requires s.queue != []
  {
    var first := s.queue[0];
    s.(queue := s.queue[1..],
       tx := if IsMarker(first) then Ending(first.seqNo, 0) else Collected(config, [first]))
  }

  function AfterCollectNext(config: Config, s: State): State
    requires s.tx.Collecting? && s.queue != []
  {
    var next := s.queue[0];
    s.(queue := s.queue[1..],
       tx := if IsMarker(next) then Sending(s.tx.bundle, 0, Some(next.seqNo))
             else Collected(config, s.tx.bundle + [next]))
  }

  function AfterTrySend(config: Config, s: State, radio: Radio): State
    requires s.tx.Sending? && 0 < |s.tx.bundle| < 0x100
  {
    match SendBundle(config, s.link, radio, s.tx.bundle)
    case Some(octets) => Delivered(s, octets)
    case None =>
      if s.tx.retries + 1 >= MAX_RETRIES then Abandoned(s)
      else s.(tx := Sending(s.tx.bundle, s.tx.retries + 1, s.tx.end))
  }

  function Delivered(s: State, octets: seq<byte>): State
    requires s.tx.Sending?
  {
    s.(tx := NextRound(s.tx.end), sentFrames := s.sentFrames + |s.tx.bundle|,
       bundles := s.bundles + [s.tx.bundle], wire := s.wire + [octets])
  }

  function Abandoned(s: State): State
    requires s.tx.Sending?
  {
    s.(tx := NextRound(s.tx.end), txDropped := s.txDropped + |s.tx.bundle|)
  }

  function AfterTrySendEnd(config: Config, s: State, radio: Radio): State
    requires s.tx.Ending?
  {
    match SendAudio(config, s.link, radio, Marker(s.tx.endSeq))
    case Some(octets) => s.(tx := Exited(s.tx.endSeq, true), wire := s.wire + [octets])
    case None =>
      if s.tx.retries + 1 >= MAX_RETRIES
      then s.(tx := Exited(s.tx.endSeq, false))
      else s.(tx := Ending(s.tx.endSeq, s.tx.retries + 1))
  }

  ghost predicate IsRun(config: Config, from: State, events: seq<Event>)
    decreases events
  {
    events == [] || (Enabled(config, from, events[0]) && IsRun(config, Step(config, from, events[0]), events[1..]))
  }

  function Run(config: Config, from: State, events: seq<Event>): State
    requires IsRun(config, from, events)
    decreases events
  {
    if events == [] then from else Run(config, Step(config, from, events[0]), events[1..])
  }
}
