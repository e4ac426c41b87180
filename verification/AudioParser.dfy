/** The desktop's parser of audio notifications: a cursor over the octets, and what it computes. */
module AudioParser {
  import opened Optional
  import opened Bytes
  import opened AudioTransport

  // ---- the packets of a v2 body ----

  /** The payloads of exactly count length-prefixed packets filling the body. */
  function SplitPackets(body: seq<byte>, count: nat): (payloads: Option<seq<seq<byte>>>)
    ensures payloads.Some? ==> |payloads.value| == count
    decreases count
  {
    if count == 0 then if body == [] then Some([]) else None
    else if body == [] then None
    else
      var length := body[0];
      if length == 0 || 1 + length > |body| then None
      else
        var rest := SplitPackets(body[1 + length..], count - 1);
        if rest.None? then None else Some([body[1..1 + length]] + rest.value)
  }

  /** A bundle's START belongs to its first frame and its END to its last. */
  function FrameFlags(flags: byte, index: nat, count: nat): byte {
    (if index == 0 && HasStart(flags) then START else 0)
      + (if index + 1 == count && HasEnd(flags) then END else 0)
  }

  function NumberedFrames(session: uint32, firstSeq: uint32, flags: byte, payloads: seq<seq<byte>>,
                          count: nat): seq<Frame>
    requires |payloads| == count
  {
    seq(count, i requires 0 <= i < count => FrameAt(session, firstSeq, flags, count, i, payloads[i]))
  }

  function FrameAt(session: uint32, firstSeq: uint32, flags: byte, count: nat, i: nat, payload: seq<byte>): Frame {
    Frame(session, SeqAfter(firstSeq, i), FrameFlags(flags, i, count), payload)
  }

  function ParseBatch(data: seq<byte>): Option<Batch> {
    if |data| < HEADER_SIZE then None
    else
      var version := data[0];
      if (version != V1 && version != V2) || data[1] != TYPE_AUDIO then None
      else if ReadLe16(data[2..4]) != HEADER_SIZE then None
      else
        var session, firstSeq := ReadLe32(data[4..8]), ReadLe32(data[8..12]);
        var flags := data[12];
        if |data| != HEADER_SIZE + ReadLe16(data[14..16]) then None
        else
          var body := data[HEADER_SIZE..];
          if version == V1 then
            Some(Batch(version, session, firstSeq, if body == [] && HasEnd(flags) then 0 else 1, flags,
                       [Frame(session, firstSeq, flags, body)]))
          else if data[13] == 0 then
            if body == [] && HasEnd(flags)
            then Some(Batch(version, session, firstSeq, 0, flags, [Frame(session, firstSeq, flags, [])]))
            else None
          else
            var payloads := SplitPackets(body, data[13]);
            if payloads.None? then None
            else Some(Batch(version, session, firstSeq, data[13], flags,
                            NumberedFrames(session, firstSeq, flags, payloads.value, data[13])))
  }

  /** The parser as the desktop runs it: a cursor that advances over the notification. */
  method ParseAudioBatch(data: seq<byte>) returns (batch: Option<Batch>)
    ensures batch == ParseBatch(data)
  {
    if |data| < HEADER_SIZE {
      return None;
    }
    var version := data[0];
    if (version != V1 && version != V2) || data[1] != TYPE_AUDIO {
      return None;
    }
    if ReadLe16(data[2..4]) != HEADER_SIZE {
      return None;
    }
    var session, firstSeq := ReadLe32(data[4..8]), ReadLe32(data[8..12]);
    var flags := data[12];
    var packetCount := if version == V2 then data[13] else 1;
    var payloadLength := ReadLe16(data[14..16]);
    if |data| != HEADER_SIZE + payloadLength {
      return None;
    }
    if version == V1 {
      var legacyPacketCount := if payloadLength == 0 && HasEnd(flags) then 0 else 1;
      var payload := data[HEADER_SIZE..HEADER_SIZE + payloadLength];
      assert payload == data[HEADER_SIZE..];
      var frame := Frame(session, firstSeq, flags, payload);
      return Some(Batch(version, session, firstSeq, legacyPacketCount, flags, [frame]));
    }
    if packetCount == 0 {
      if payloadLength != 0 || !HasEnd(flags) {
        return None;
      }
      return Some(Batch(version, session, firstSeq, 0, flags, [Frame(session, firstSeq, flags, [])]));
    }

    var frames := ParsePackets(data, session, firstSeq, flags, packetCount);
    if frames.None? {
      return None;
    }
    batch := Some(Batch(version, session, firstSeq, packetCount, flags, frames.value));
  }

  method ParsePackets(data: seq<byte>, session: uint32, firstSeq: uint32, flags: byte, packetCount: byte)
    returns (result: Option<seq<Frame>>)
    requires |data| >= HEADER_SIZE
    ensures var payloads := SplitPackets(data[HEADER_SIZE..], packetCount);
      result == if payloads.None? then None
                else Some(NumberedFrames(session, firstSeq, flags, payloads.value, packetCount))
  {
    hide SplitPackets, FrameFlags, SeqAfter;
    var cursor := HEADER_SIZE;
    var frames: seq<Frame> := [];
    ghost var whole := SplitPackets(data[HEADER_SIZE..], packetCount);
    ghost var payloads: seq<seq<byte>> := [];
    PrependNothing(whole);
    for index := 0 to packetCount
      invariant HEADER_SIZE <= cursor <= |data|
      invariant |payloads| == |frames| == index
      invariant forall i :: 0 <= i < index ==>
        frames[i] == FrameAt(session, firstSeq, flags, packetCount, i, payloads[i])
      invariant whole == Prepend(payloads, SplitPackets(data[cursor..], packetCount - index))
    {
      SplitStep(data, cursor, packetCount - index);
      if cursor >= |data| {
        return None;
      }
      var packetLength := data[cursor];
      cursor := cursor + 1;
      if packetLength == 0 || cursor + packetLength > |data| {
        return None;
      }
      var frameFlags := (if index == 0 && HasStart(flags) then START else 0)
                        + (if index == packetCount - 1 && HasEnd(flags) then END else 0);
      MarksAtEnds(flags, index, packetCount, frameFlags);
      var payload := data[cursor..cursor + packetLength];
      frames := frames + [Frame(session, SeqAfter(firstSeq, index), frameFlags, payload)];
      cursor := cursor + packetLength;
      PrependOneMore(payloads, payload, SplitPackets(data[cursor..], packetCount - index - 1));
      payloads := payloads + [payload];
    }
    SplitEnd(data[cursor..], payloads);
    if cursor != |data| {
      return None;
    }
    result := Some(frames);
    assert frames == NumberedFrames(session, firstSeq, flags, payloads, packetCount);
  }

  lemma MarksAtEnds(flags: byte, index: nat, count: nat, frameFlags: byte)
    requires frameFlags == (if index == 0 && HasStart(flags) then START else 0)
                           + (if index == count - 1 && HasEnd(flags) then END else 0)
    ensures frameFlags == FrameFlags(flags, index, count)
  {
  }

  lemma SplitEnd(body: seq<byte>, payloads: seq<seq<byte>>)
    ensures Prepend(payloads, SplitPackets(body, 0)) == if body == [] then Some(payloads) else None
  {
    assert payloads + [] == payloads;
  }

  /** What one round of the packet loop does to the rest of the body. */
  lemma SplitStep(data: seq<byte>, cursor: nat, count: nat)
    requires cursor <= |data| && count > 0
    ensures cursor == |data| || data[cursor] == 0 || cursor + 1 + data[cursor] > |data|
      ==> SplitPackets(data[cursor..], count).None?
    ensures cursor < |data| && data[cursor] != 0 && cursor + 1 + data[cursor] <= |data|
      ==> var next := cursor + 1 + data[cursor];
          SplitPackets(data[cursor..], count)
          == Prepend([data[cursor + 1..next]], SplitPackets(data[next..], count - 1))
  {
    if cursor < |data| && data[cursor] != 0 && cursor + 1 + data[cursor] <= |data| {
      var body, length := data[cursor..], data[cursor];
      assert body[1 + length..] == data[cursor + 1 + length..];
      assert body[1..1 + length] == data[cursor + 1..cursor + 1 + length];
    }
  }

  ghost function Prepend<T>(front: seq<T>, back: Option<seq<T>>): Option<seq<T>> {
    if back.None? then None else Some(front + back.value)
  }

  lemma PrependNothing<T>(back: Option<seq<T>>)
    ensures Prepend([], back) == back
  {
    if back.Some? {
      assert [] + back.value == back.value;
    }
  }

  lemma PrependOneMore<T>(front: seq<T>, x: T, back: Option<seq<T>>)
    ensures Prepend(front, Prepend([x], back)) == Prepend(front + [x], back)
  {
    if back.Some? {
      assert front + ([x] + back.value) == front + [x] + back.value;
    }
  }
}
