/**
 The two firmware tasks as they run: fields updated in place, one method for each stretch of a task
 between two points where the other task or the radio may act.

 The capture task takes a frame number, queues the packet and may overwrite the oldest one. The transmit
 task collects a bundle, waits for the window, encodes into its stack frame and hands it to the radio. The
 radio's handler stores acknowledgements.

 Each method is proved to be its step of the pipeline.
 */
module AudioTasks {
  import opened Optional
  import opened Bytes
  import opened AudioTransport
  import opened AudioPipeline

  class Recorder {
    const config: Config
    var running: bool
    var captureDone: bool
    var seqNo: uint32
    var txQueue: seq<Packet>
    var overflowDrops: nat
    var tx: Tx
    var sentFrames: nat
    var txDropped: nat
    var linkVersion: byte
    var sessionId: uint32
    var ackedSeq: uint32
    var bundles: seq<seq<Packet>>
    var wire: seq<seq<byte>>

    function Model(): State
      reads this
    {
      State(running, captureDone, seqNo, txQueue, tx, sentFrames, txDropped, overflowDrops,
            Link(linkVersion, sessionId, ackedSeq), bundles, wire)
    }

    constructor (config: Config)
      ensures this.config == config && Model() == Initial(config)
    {
      this.config := config;
      running, captureDone, seqNo, txQueue, overflowDrops := true, false, 0, [], 0;
      tx, sentFrames, txDropped := Idle, 0, 0;
      linkVersion, sessionId, ackedSeq := config.version, config.session, 0;
      bundles, wire := [], [];
    }

    // ---- encoder task ----

    method QueueSend(packet: Packet) returns (sent: bool)
      modifies `txQueue
      ensures sent == (|old(txQueue)| < QUEUE_DEPTH)
      ensures txQueue == if sent then old(txQueue) + [packet] else old(txQueue)
    {
      sent := |txQueue| < QUEUE_DEPTH;
      if sent {
        txQueue := txQueue + [packet];
      }
    }

    method QueueReceive() returns (packet: Packet)
      requires txQueue != []
      modifies `txQueue
      ensures [packet] + txQueue == old(txQueue)
    {
      packet := txQueue[0];
      txQueue := txQueue[1..];
    }

    /** One round of the encoder loop. */
    method CaptureFrame(payload: Payload)
      requires Enabled(config, Model(), Captured(payload)) && |txQueue| <= QUEUE_DEPTH
      modifies this
      ensures Model() == Step(config, old(Model()), Captured(payload))
    {
      var pkt := Packet(seqNo, if seqNo == 0 then START else 0, payload);
      var sent := QueueSend(pkt);
      if sent {
        seqNo := seqNo + 1;
      } else {
        var _ := QueueReceive();
        sent := QueueSend(pkt);
        seqNo := seqNo + 1;
        overflowDrops := overflowDrops + 1;
      }
    }

    method EndCapture()
      requires Enabled(config, Model(), CaptureTaskEnds)
      modifies this
      ensures Model() == Step(config, old(Model()), CaptureTaskEnds)
    {
      var _ := QueueSend(Packet(seqNo, END, []));
      captureDone := true;
    }

    // ---- transmit task ----

    method ReceiveFirstPacket()
      requires Enabled(config, Model(), ReceiveFirst)
      modifies this
      ensures Model() == Step(config, old(Model()), ReceiveFirst)
    {
      var first := QueueReceive();
      if first.flags == END && |first.payload| == 0 {
        tx := Ending(first.seqNo, 0);
      } else if 1 < config.bundleSize {
        tx := Collecting([first]);
      } else {
        tx := Sending([first], 0, None);
      }
    }

    method CollectNextPacket()
      requires Enabled(config, Model(), CollectNext)
      modifies this
      ensures Model() == Step(config, old(Model()), CollectNext)
    {
      var next := QueueReceive();
      var bundle := tx.bundle;
      if next.flags == END && |next.payload| == 0 {
        tx := Sending(bundle, 0, Some(next.seqNo));
        return;
      }
      bundle := bundle + [next];
      tx := if |bundle| < config.bundleSize then Collecting(bundle) else Sending(bundle, 0, None);
    }

    /** One attempt to notify the bundle, with the retry and drop accounting around it. */
    method TrySendBundle(radio: Radio)
      requires Enabled(config, Model(), TrySend(radio))
      modifies this
      ensures Model() == Step(config, old(Model()), TrySend(radio))
    {
      hide SendBundle;
      var bundle, end := tx.bundle, tx.end;
      var notified := SendAudioBundle(radio, bundle);
      if notified.None? {
        var retries := tx.retries + 1;
        if retries >= MAX_RETRIES {
          txDropped := txDropped + |bundle|;
          tx := NextRound(end);
        } else {
          tx := Sending(bundle, retries, end);
        }
      } else {
        sentFrames := sentFrames + |bundle|;
        bundles, wire := bundles + [bundle], wire + [notified.value];
        tx := NextRound(end);
      }
    }

    method TrySendEndMarker(radio: Radio)
      requires Enabled(config, Model(), TrySendEnd(radio))
      modifies this
      ensures Model() == Step(config, old(Model()), TrySendEnd(radio))
    {
      hide SendAudio;
      var endSeq := tx.endSeq;
      var notified := SendAudioPacket(radio, Packet(endSeq, END, []));
      if notified.Some? {
        wire := wire + [notified.value];
        tx := Exited(endSeq, true);
      } else {
        var retries := tx.retries + 1;
        tx := if retries < MAX_RETRIES then Ending(endSeq, retries) else Exited(endSeq, false);
      }
    }

    method SendAudioBundle(radio: Radio, bundle: seq<Packet>) returns (notified: Option<seq<byte>>)
      requires 0 < |bundle| < 0x100
      ensures notified == SendBundle(config, Model().link, radio, bundle)
    {
      if config.version == V1 {
        notified := SendAudioPacket(radio, bundle[0]);
        return;
      }
      var nextSeq := SeqAfter(bundle[|bundle| - 1].seqNo, 1);
      var open := AudioWindowOpens(radio, nextSeq);
      if !open {
        return None;
      }
      notified := SendAudioPackets(radio, bundle[0].seqNo, 0, bundle);
    }

    /** The end of the wait for the window: the verdict of its last look at the acknowledgement. */
    method AudioWindowOpens(radio: Radio, nextSeq: uint32) returns (open: bool)
      ensures open <==> linkVersion < V2 || (radio.ready && WindowOpen(config, Model().link, nextSeq))
    {
      if linkVersion < V2 {
        return true;
      }
      if !radio.ready || config.session != sessionId {
        return false;
      }
      open := ackedSeq >= nextSeq || nextSeq - ackedSeq <= config.maxInflight;
    }

    method SendAudioPacket(radio: Radio, packet: Packet) returns (notified: Option<seq<byte>>)
      ensures notified == SendAudio(config, Model().link, radio, packet)
    {
      if linkVersion == V2 && |packet.payload| == 0 && HasEnd(packet.flags) {
        notified := SendAudioPackets(radio, packet.seqNo, packet.flags, []);
      } else {
        notified := SendAudioPackets(radio, packet.seqNo, 0, [packet]);
      }
    }

    method SendAudioPackets(radio: Radio, firstSeq: uint32, flags: byte, packets: seq<Packet>)
      returns (notified: Option<seq<byte>>)
      requires |packets| < 0x100
      ensures notified == SendPackets(config, Model().link, radio, firstSeq, flags, packets)
    {
      if !radio.ready || radio.capacity > config.frameBuffer {
        return None;
      }
      var frame := new byte[config.frameBuffer](_ => 0);
      hide Encode;
      var error, frameLen :=
        EncodeInto(linkVersion, config.session, firstSeq, flags, packets, frame, radio.capacity);
      if error.Some? || !radio.accepts {
        return None;
      }
      notified := Some(frame[..frameLen]);
    }

    // ---- radio events ----

    /** An ACK written by the host: only for this session, and never backwards. */
    method OnAck(session: uint32, nextSeq: uint32)
      requires Enabled(config, Model(), AckArrives(session, nextSeq))
      modifies `ackedSeq
      ensures Model() == Step(config, old(Model()), AckArrives(session, nextSeq))
    {
      if session == sessionId && nextSeq >= ackedSeq {
        ackedSeq := nextSeq;
      }
    }

    /** Reconnect, disconnect or a newly selected transport version. */
    method OnLinkReset(version: byte)
      requires Enabled(config, Model(), LinkReset(version))
      modifies `linkVersion, `sessionId, `ackedSeq
      ensures Model() == Step(config, old(Model()), LinkReset(version))
    {
      linkVersion, sessionId, ackedSeq := version, 0, 0;
    }
  }
}
