/**
 The audio frame format, both ends. A v1 frame carries one packet; a v2 frame carries length-prefixed
 packets with consecutive sequence numbers, and a v2 frame without packets is the end marker.
 */
module AudioTransport {
  import opened Optional
  import opened Bytes

  const V1: byte := 1
  const V2: byte := 2
  const TYPE_AUDIO: byte := 1
  const HEADER_SIZE: nat := 16
  const START: byte := 1
  const END: byte := 2

  type Payload = p: seq<byte> | |p| < 0x1_0000

  datatype Packet = Packet(seqNo: uint32, flags: byte, payload: Payload)

  datatype EncodeError =
    | InvalidArgument
    | BufferTooSmall
    | PacketTooLarge
    | NoncontiguousSequence

  datatype Encoded = Wire(octets: seq<byte>) | Rejected(error: EncodeError)

  datatype Frame = Frame(session: uint32, seqNo: uint32, flags: byte, payload: seq<byte>)

  datatype Batch = Batch(version: byte, session: uint32, firstSeq: uint32, packetCount: byte,
                         flags: byte, frames: seq<Frame>)
  {
    /** The cumulative acknowledgement a receiver of this batch writes back. */
    function AcknowledgedNextSeq(): uint32 {
      SeqAfter(firstSeq, packetCount)
    }
  }

  // ---- flag bits ----

  predicate HasStart(flags: byte) {
    flags % 2 == 1
  }

  predicate HasEnd(flags: byte) {
    flags / 2 % 2 == 1
  }

  function Pow2(n: nat): (p: nat)
    ensures p > 0
  {
    if n == 0 then 1 else 2 * Pow2(n - 1)
  }

  /** Bitwise or of two n-bit numbers. */
  function Or(a: nat, b: nat, n: nat): (r: nat)
    requires a < Pow2(n) && b < Pow2(n)
    ensures r < Pow2(n)
  {
    if n == 0 then 0
    else (if a % 2 == 1 || b % 2 == 1 then 1 else 0) + 2 * Or(a / 2, b / 2, n - 1)
  }

  lemma EightBits()
    ensures Pow2(8) == 0x100
  {
    assert Pow2(4) == 16;
    assert Pow2(6) == 64;
  }

  function OrFlags(a: byte, b: byte): byte {
    EightBits();
    Or(a, b, 8)
  }

  lemma OrFlagsBits(a: byte, b: byte)
    ensures HasStart(OrFlags(a, b)) <==> HasStart(a) || HasStart(b)
    ensures HasEnd(OrFlags(a, b)) <==> HasEnd(a) || HasEnd(b)
  {
    EightBits();
    assert Or(a, b, 8) / 2 == Or(a / 2, b / 2, 7);
    assert Or(a / 2, b / 2, 7) % 2 == 1 <==> a / 2 % 2 == 1 || b / 2 % 2 == 1;
  }

  lemma {:induction false} OrWithZero(a: nat, n: nat)
    requires a < Pow2(n)
    ensures Or(a, 0, n) == a
  {
    if n > 0 {
      OrWithZero(a / 2, n - 1);
    }
  }

  lemma {:induction false} ZeroWithOr(b: nat, n: nat)
    requires b < Pow2(n)
    ensures Or(0, b, n) == b
  {
    if n > 0 {
      ZeroWithOr(b / 2, n - 1);
    }
  }

  /** Or-ing in marks that are already set changes nothing. */
  lemma OrAbsorbsMarks(flags: byte, marks: byte)
    requires marks < 4
    requires HasStart(marks) ==> HasStart(flags)
    requires HasEnd(marks) ==> HasEnd(flags)
    ensures OrFlags(flags, marks) == flags
  {
    EightBits();
    var f, m := flags / 2, marks / 2;
    OrWithZero(f / 2, 6);
    assert m / 2 == 0;
    assert Or(f, m, 7) == (if f % 2 == 1 || m % 2 == 1 then 1 else 0) + 2 * (f / 2);
    assert Or(f, m, 7) == f;
  }

  // ---- what the encoder writes ----

  function SeqAfter(firstSeq: uint32, steps: nat): uint32 {
    (firstSeq + steps) % TWO_TO_THE_32
  }

  /** The first complaint of the encoder's packet scan, if any. */
  function ScanError(version: byte, firstSeq: uint32, packets: seq<Packet>, index: nat): Option<EncodeError>
    requires index <= |packets|
    decreases |packets| - index
  {
    if index == |packets| then None
    else if packets[index].seqNo != SeqAfter(firstSeq, index) then Some(NoncontiguousSequence)
    else if version == V2 && |packets[index].payload| > 0xff then Some(PacketTooLarge)
    else ScanError(version, firstSeq, packets, index + 1)
  }

  function UnionFlags(flags: byte, packets: seq<Packet>): byte
    decreases packets
  {
    if packets == [] then flags else UnionFlags(OrFlags(flags, packets[0].flags), packets[1..])
  }

  /** The octets of one packet; the length prefix wraps like the encoder's cast to one octet. */
  function PacketOctets(version: byte, payload: seq<byte>): seq<byte> {
    if version == V2 then [|payload| % 0x100] + payload else payload
  }

  function Body(version: byte, packets: seq<Packet>): seq<byte> {
    if packets == [] then []
    else PacketOctets(version, packets[0].payload) + Body(version, packets[1..])
  }

  function Header(version: byte, session: uint32, firstSeq: uint32, flags: byte, count: byte,
                  payloadLen: uint16): (h: seq<byte>)
    ensures |h| == HEADER_SIZE
  {
    [version, TYPE_AUDIO] + Le(HEADER_SIZE, 2) + Le(session, 4) + Le(firstSeq, 4)
      + [flags, count] + Le(payloadLen, 2)
  }

  function Encode(version: byte, session: uint32, firstSeq: uint32, envelope: byte,
                  packets: seq<Packet>, capacity: nat): Encoded
    requires |packets| < 0x100
  {
    if capacity < HEADER_SIZE then Rejected(InvalidArgument)
    else if version == V1 && |packets| != 1 then Rejected(InvalidArgument)
    else if version != V1 && version != V2 then Rejected(InvalidArgument)
    else
      var scan := ScanError(version, firstSeq, packets, 0);
      if scan.Some? then Rejected(scan.value)
      else
        var body := Body(version, packets);
        if |body| > 0xffff || HEADER_SIZE + |body| > capacity then Rejected(BufferTooSmall)
        else
          Wire(Header(version, session, firstSeq, UnionFlags(envelope, packets),
                      if version == V2 then |packets| else 0, |body|) + body)
  }

  // ---- the encoder as the firmware runs it: a cursor over a caller's buffer ----

  /** Memory after its first octets were overwritten. */
  function Overwritten(memory: seq<byte>, written: seq<byte>): (r: seq<byte>)
    requires |written| <= |memory|
    ensures |r| == |memory|
  {
    written + memory[|written|..]
  }

  method WriteOctet(output: array<byte>, cursor: nat, octet: byte, ghost memory: seq<byte>, ghost written: seq<byte>)
    requires cursor == |written| < output.Length == |memory|
    requires output[..] == Overwritten(memory, written)
    modifies output
    ensures output[..] == Overwritten(memory, written + [octet])
  {
    output[cursor] := octet;
  }

  method WriteLe(output: array<byte>, cursor: nat, value: nat, width: nat,
                 ghost memory: seq<byte>, ghost written: seq<byte>)
    requires cursor == |written| && cursor + width <= output.Length == |memory|
    requires output[..] == Overwritten(memory, written)
    modifies output
    ensures output[..] == Overwritten(memory, written + Le(value, width))
  {
    var rest := value;
    ghost var done: seq<byte> := written;
    for i := 0 to width
      invariant |done| == cursor + i
      invariant written + Le(value, width) == done + Le(rest, width - i)
      invariant output[..] == Overwritten(memory, done)
    {
      WriteOctet(output, cursor + i, rest % 0x100, memory, done);
      done := done + [rest % 0x100];
      rest := rest / 0x100;
    }
    assert done + [] == done;
  }

  method CopyInto(output: array<byte>, cursor: nat, source: seq<byte>,
                  ghost memory: seq<byte>, ghost written: seq<byte>)
    requires cursor == |written| && cursor + |source| <= output.Length == |memory|
    requires output[..] == Overwritten(memory, written)
    modifies output
    ensures output[..] == Overwritten(memory, written + source)
  {
    for i := 0 to |source|
      invariant output[..] == Overwritten(memory, written + source[..i])
    {
      WriteOctet(output, cursor + i, source[i], memory, written + source[..i]);
      assert written + source[..i] + [source[i]] == written + source[..i + 1];
    }
    assert source[..|source|] == source;
  }

  method WriteHeader(output: array<byte>, version: byte, session: uint32, firstSeq: uint32,
                     flags: byte, count: byte, payloadLen: uint16)
    requires HEADER_SIZE <= output.Length
    modifies output
    ensures output[..]
         == Overwritten(old(output[..]), Header(version, session, firstSeq, flags, count, payloadLen))
  {
    ghost var memory := output[..];
    ghost var h: seq<byte> := [];
    assert output[..] == Overwritten(memory, h);
    WriteOctet(output, 0, version, memory, h);
    WriteOctet(output, 1, TYPE_AUDIO, memory, h + [version]);
    h := [version] + [TYPE_AUDIO];
    assert h == [version, TYPE_AUDIO];
    WriteLe(output, 2, HEADER_SIZE, 2, memory, h);
    h := h + Le(HEADER_SIZE, 2);
    WriteLe(output, 4, session, 4, memory, h);
    h := h + Le(session, 4);
    WriteLe(output, 8, firstSeq, 4, memory, h);
    h := h + Le(firstSeq, 4);
    WriteOctet(output, 12, flags, memory, h);
    WriteOctet(output, 13, count, memory, h + [flags]);
    assert h + [flags] + [count] == h + [flags, count];
    h := h + [flags, count];
    WriteLe(output, 14, payloadLen, 2, memory, h);
  }

  /** The scan loop: total payload length and united flags, or the first complaint. */
  method ScanPackets(version: byte, firstSeq: uint32, envelope: byte, packets: seq<Packet>)
    returns (error: Option<EncodeError>, payloadLen: nat, flags: byte)
    requires |packets| < 0x100
    ensures error == ScanError(version, firstSeq, packets, 0)
    ensures error.None? ==> payloadLen == |Body(version, packets)|
    ensures error.None? ==> flags == UnionFlags(envelope, packets)
  {
    payloadLen := if version == V2 then |packets| else 0;
    flags := envelope;
    for index := 0 to |packets|
      invariant ScanError(version, firstSeq, packets, 0) == ScanError(version, firstSeq, packets, index)
      invariant payloadLen + |Body(version, packets[index..])|
             == |Body(version, packets)| + (if version == V2 then |packets| - index else 0)
      invariant UnionFlags(flags, packets[index..]) == UnionFlags(envelope, packets)
    {
      if packets[index].seqNo != SeqAfter(firstSeq, index) {
        return Some(NoncontiguousSequence), payloadLen, flags;
      }
      if version == V2 && |packets[index].payload| > 0xff {
        return Some(PacketTooLarge), payloadLen, flags;
      }
      assert packets[index..][1..] == packets[index + 1..];
      payloadLen := payloadLen + |packets[index].payload|;
      flags := OrFlags(flags, packets[index].flags);
    }
    error := None;
  }

  method EncodeInto(version: byte, session: uint32, firstSeq: uint32, envelope: byte,
                    packets: seq<Packet>, output: array<byte>, capacity: nat)
    returns (error: Option<EncodeError>, outputLen: nat)
    requires |packets| < 0x100 && capacity <= output.Length
    modifies output
    ensures match Encode(version, session, firstSeq, envelope, packets, capacity)
            case Wire(octets) =>
              error.None? && outputLen == |octets| <= capacity
              && output[..] == Overwritten(old(output[..]), octets)
            case Rejected(e) => error == Some(e) && output[..] == old(output[..])
  {
    outputLen := 0;
    if capacity < HEADER_SIZE {
      return Some(InvalidArgument), 0;
    }
    if version == V1 && |packets| != 1 {
      return Some(InvalidArgument), 0;
    }
    if version != V1 && version != V2 {
      return Some(InvalidArgument), 0;
    }
    var payloadLen, flags;
    error, payloadLen, flags := ScanPackets(version, firstSeq, envelope, packets);
    if error.Some? {
      return;
    }
    if payloadLen > 0xffff || HEADER_SIZE + payloadLen > capacity {
      return Some(BufferTooSmall), 0;
    }

    ghost var memory := output[..];
    WriteHeader(output, version, session, firstSeq, flags,
                if version == V2 then |packets| else 0, payloadLen);
    outputLen := WriteBody(output, version, packets, memory,
                           Header(version, session, firstSeq, flags,
                                  if version == V2 then |packets| else 0, payloadLen));
  }

  method WriteBody(output: array<byte>, version: byte, packets: seq<Packet>,
                   ghost memory: seq<byte>, ghost header: seq<byte>)
    returns (cursor: nat)
    requires |header| == HEADER_SIZE
    requires HEADER_SIZE + |Body(version, packets)| <= output.Length == |memory|
    requires output[..] == Overwritten(memory, header)
    modifies output
    ensures cursor == HEADER_SIZE + |Body(version, packets)|
    ensures output[..] == Overwritten(memory, header + Body(version, packets))
  {
    hide Body;
    ghost var octets := header + Body(version, packets);
    ghost var written: seq<byte> := header;
    cursor := HEADER_SIZE;
    assert packets[0..] == packets;
    for index := 0 to |packets|
      invariant cursor == |written|
      invariant written + Body(version, packets[index..]) == octets
      invariant output[..] == Overwritten(memory, written)
    {
      ghost var before := written;
      ghost var payload := packets[index].payload;
      BodyFrom(version, packets, index);
      cursor := WritePacket(output, cursor, version, packets[index].payload, memory, written);
      written := written + PacketOctets(version, payload);
      Regroup(before, PacketOctets(version, payload), Body(version, packets[index + 1..]));
    }
    BodyOfNone(version, packets[|packets|..]);
  }

  method WritePacket(output: array<byte>, at: nat, version: byte, payload: Payload,
                     ghost memory: seq<byte>, ghost written: seq<byte>)
    returns (cursor: nat)
    requires at == |written|
    requires at + |PacketOctets(version, payload)| <= output.Length == |memory|
    requires output[..] == Overwritten(memory, written)
    modifies output
    ensures cursor == at + |PacketOctets(version, payload)|
    ensures output[..] == Overwritten(memory, written + PacketOctets(version, payload))
  {
    ghost var prefix: seq<byte> := if version == V2 then [|payload| % 0x100] else [];
    cursor := at;
    if version == V2 {
      WriteOctet(output, cursor, |payload| % 0x100, memory, written);
      cursor := cursor + 1;
    }
    assert output[..] == Overwritten(memory, written + prefix);
    if |payload| > 0 {
      CopyInto(output, cursor, payload, memory, written + prefix);
      cursor := cursor + |payload|;
    }
    Regroup(written, prefix, payload);
    assert prefix + payload == PacketOctets(version, payload);
  }

  lemma BodyOfNone(version: byte, packets: seq<Packet>)
    requires packets == []
    ensures forall s: seq<byte> :: s + Body(version, packets) == s
  {
  }

  lemma Regroup(a: seq<byte>, b: seq<byte>, c: seq<byte>)
    ensures a + b + c == a + (b + c)
  {
  }

  lemma BodyFrom(version: byte, packets: seq<Packet>, index: nat)
    requires index < |packets|
    ensures Body(version, packets[index..])
         == PacketOctets(version, packets[index].payload) + Body(version, packets[index + 1..])
  {
    assert packets[index..][1..] == packets[index + 1..];
  }
}
