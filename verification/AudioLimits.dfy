/** Which packets the audio encoder takes, and what it complains of otherwise. */
module AudioLimits {
  import opened Optional
  import opened Bytes
  import opened AudioTransport
  import opened AudioRoundTrip

  /** What is wrong with packet i. */
  predicate OutOfOrder(firstSeq: uint32, packets: seq<Packet>, i: nat)
    requires i < |packets|
  {
    packets[i].seqNo != SeqAfter(firstSeq, i)
  }

  predicate TooLong(version: byte, packets: seq<Packet>, i: nat)
    requires i < |packets|
  {
    version == V2 && |packets[i].payload| >= 0x100
  }

  /** Packet i is the first with anything wrong. */
  ghost predicate FirstBad(version: byte, firstSeq: uint32, packets: seq<Packet>, i: nat)
    requires i < |packets|
  {
    && (OutOfOrder(firstSeq, packets, i) || TooLong(version, packets, i))
    && forall j :: 0 <= j < i ==> !OutOfOrder(firstSeq, packets, j) && !TooLong(version, packets, j)
  }

  /** The payloads' octets, and one more for each packet of a v2 frame. */
  function Octets(version: byte, packets: seq<Packet>): nat {
    if packets == [] then 0
    else |packets[0].payload| + (if version == V2 then 1 else 0) + Octets(version, packets[1..])
  }

  lemma {:induction false} BodyIsOctets(version: byte, packets: seq<Packet>)
    ensures |Body(version, packets)| == Octets(version, packets)
  {
    if packets != [] {
      BodyIsOctets(version, packets[1..]);
    }
  }

  predicate Proper(version: byte, packets: seq<Packet>, capacity: nat) {
    capacity >= 16 && ((version == V1 && |packets| == 1) || version == V2)
  }

  ghost predicate AllGood(version: byte, firstSeq: uint32, packets: seq<Packet>) {
    forall i :: 0 <= i < |packets| ==> !OutOfOrder(firstSeq, packets, i) && !TooLong(version, packets, i)
  }

  predicate Fits(version: byte, packets: seq<Packet>, capacity: nat) {
    Octets(version, packets) <= 0xffff && 16 + Octets(version, packets) <= capacity
  }

  /** Packet i is the first with anything wrong, and e says what. */
  ghost predicate IsComplaint(version: byte, firstSeq: uint32, packets: seq<Packet>, i: nat, e: EncodeError)
    requires i < |packets|
  {
    && FirstBad(version, firstSeq, packets, i)
    && e == if OutOfOrder(firstSeq, packets, i) then NoncontiguousSequence else PacketTooLarge
  }

  lemma {:induction false} ScanFinds(version: byte, firstSeq: uint32, packets: seq<Packet>, index: nat)
    requires index <= |packets|
    requires forall j :: 0 <= j < index ==> !OutOfOrder(firstSeq, packets, j) && !TooLong(version, packets, j)
    ensures var e := ScanError(version, firstSeq, packets, index);
      && (e.None? <==> AllGood(version, firstSeq, packets))
      && (e.Some? ==> exists i :: 0 <= i < |packets| && IsComplaint(version, firstSeq, packets, i, e.value))
    decreases |packets| - index
  {
    if index < |packets| {
      if OutOfOrder(firstSeq, packets, index) || TooLong(version, packets, index) {
        assert IsComplaint(version, firstSeq, packets, index, ScanError(version, firstSeq, packets, index).value);
      } else {
        ScanFinds(version, firstSeq, packets, index + 1);
      }
    }
  }

  /** The encoder produces a frame if and only if its arguments are proper, every packet has the number that
      is due and, under v2, a length that fits one octet, and the frame fits both the buffer and its length
      field; the first thing that is not so decides the error. */
  lemma {:induction false} EncodesIff(version: byte, session: uint32, firstSeq: uint32, envelope: byte,
                                      packets: seq<Packet>, capacity: nat)
    requires |packets| < 0x100
    ensures match Encode(version, session, firstSeq, envelope, packets, capacity)
            case Wire(octets) =>
              && Proper(version, packets, capacity) && AllGood(version, firstSeq, packets)
              && Fits(version, packets, capacity)
              && |octets| == 16 + Octets(version, packets)
            case Rejected(InvalidArgument) => !Proper(version, packets, capacity)
            case Rejected(BufferTooSmall) =>
              && Proper(version, packets, capacity) && AllGood(version, firstSeq, packets)
              && !Fits(version, packets, capacity)
            case Rejected(e) =>
              Proper(version, packets, capacity)
              && exists i :: 0 <= i < |packets| && IsComplaint(version, firstSeq, packets, i, e)
  {
    ScanFinds(version, firstSeq, packets, 0);
    BodyIsOctets(version, packets);
    hide Body, Header, UnionFlags, Octets, IsComplaint, AllGood, ScanError;
  }
}
