/** What the firmware's encoder and the desktop parsers owe each other. */
module AudioRoundTrip {
  import opened Optional
  import opened Bytes
  import opened AudioTransport
  import opened AudioParser

  // ---- parsing undoes encoding ----

  /** The frames a parser must produce: those the firmware can mean with this frame. */
  ghost predicate Parsable(version: byte, envelope: byte, packets: seq<Packet>) {
    || version == V1
    || (packets == [] && HasEnd(envelope))
    || (packets != [] && NoneEmpty(packets))
  }

  ghost predicate NoneEmpty(packets: seq<Packet>) {
    forall p :: p in packets ==> |p.payload| > 0
  }

  /** A v2 length prefix holds one octet. */
  ghost predicate AllShort(packets: seq<Packet>) {
    forall i :: 0 <= i < |packets| ==> |packets[i].payload| < 0x100
  }

  function Payloads(packets: seq<Packet>): (payloads: seq<seq<byte>>)
    ensures |payloads| == |packets|
  {
    seq(|packets|, i requires 0 <= i < |packets| => packets[i].payload)
  }

  lemma HeaderReads(version: byte, session: uint32, firstSeq: uint32, flags: byte, count: byte,
                    payloadLen: uint16, body: seq<byte>)
    ensures var d := Header(version, session, firstSeq, flags, count, payloadLen) + body;
      && d[0] == version && d[1] == TYPE_AUDIO && ReadLe16(d[2..4]) == HEADER_SIZE
      && ReadLe32(d[4..8]) == session && ReadLe32(d[8..12]) == firstSeq
      && d[12] == flags && d[13] == count && ReadLe16(d[14..16]) == payloadLen && d[HEADER_SIZE..] == body
  {
    var d := Header(version, session, firstSeq, flags, count, payloadLen) + body;
    ReadOfLe16(HEADER_SIZE);
    ReadOfLe32(session);
    ReadOfLe32(firstSeq);
    ReadOfLe16(payloadLen);
    hide Le, ReadLe, ReadLe16, ReadLe32;
    assert d[2..4] == Le(HEADER_SIZE, 2);
    assert d[4..8] == Le(session, 4);
    assert d[8..12] == Le(firstSeq, 4);
    assert d[14..16] == Le(payloadLen, 2);
    assert d[HEADER_SIZE..] == body;
  }

  lemma SplitOne(first: seq<byte>, tail: seq<byte>, count: nat)
    requires |first| < 0x100
    ensures SplitPackets([|first|] + first + tail, count + 1)
         == if first == [] then None else Prepend([first], SplitPackets(tail, count))
  {
    var body := [|first|] + first + tail;
    assert body[1..1 + |first|] == first;
    assert body[1 + |first|..] == tail;
  }

  lemma BodyCons(packets: seq<Packet>)
    requires packets != [] && |packets[0].payload| < 0x100
    ensures Body(V2, packets)
         == [|packets[0].payload|] + packets[0].payload + Body(V2, packets[1..])
  {
  }

  lemma PayloadsCons(packets: seq<Packet>)
    requires packets != []
    ensures Payloads(packets) == [packets[0].payload] + Payloads(packets[1..])
  {
  }

  lemma {:induction false} SplitOfBody(packets: seq<Packet>)
    requires AllShort(packets)
    ensures SplitPackets(Body(V2, packets), |packets|)
         == if NoneEmpty(packets) then Some(Payloads(packets)) else None
  {
    if packets == [] {
      assert Payloads(packets) == [];
    } else {
      assert AllShort(packets[1..]) && |packets[0].payload| < 0x100;
      hide SplitPackets, Body, NoneEmpty, Payloads, AllShort;
      var first, rest := packets[0].payload, packets[1..];
      BodyCons(packets);
      SplitOne(first, Body(V2, rest), |rest|);
      SplitOfBody(rest);
      NoneEmptyRest(packets);
      PayloadsCons(packets);
    }
  }

  lemma NoneEmptyRest(packets: seq<Packet>)
    requires packets != []
    ensures NoneEmpty(packets) <==> packets[0].payload != [] && NoneEmpty(packets[1..])
  {
    assert packets == [packets[0]] + packets[1..];
  }

  lemma {:induction false} ScanPasses(version: byte, firstSeq: uint32, packets: seq<Packet>, index: nat)
    requires index <= |packets| && ScanError(version, firstSeq, packets, index).None?
    ensures forall i :: index <= i < |packets| ==> packets[i].seqNo == SeqAfter(firstSeq, i)
    ensures version == V2 ==> forall i :: index <= i < |packets| ==> |packets[i].payload| < 0x100
    decreases |packets| - index
  {
    if index < |packets| {
      ScanPasses(version, firstSeq, packets, index + 1);
    }
  }

  /** What a successful encoding consists of. */
  lemma EncodeForm(version: byte, session: uint32, firstSeq: uint32, envelope: byte,
                   packets: seq<Packet>, capacity: nat)
    requires |packets| < 0x100
    requires Encode(version, session, firstSeq, envelope, packets, capacity).Wire?
    ensures version == V2 || (version == V1 && |packets| == 1)
    ensures HEADER_SIZE + |Body(version, packets)| <= capacity && |Body(version, packets)| < 0x1_0000
    ensures Encode(version, session, firstSeq, envelope, packets, capacity).octets
         == Header(version, session, firstSeq, UnionFlags(envelope, packets),
                   if version == V2 then |packets| else 0, |Body(version, packets)|) + Body(version, packets)
    ensures forall i :: 0 <= i < |packets| ==> packets[i].seqNo == SeqAfter(firstSeq, i)
    ensures version == V2 ==> AllShort(packets)
  {
    ScanPasses(version, firstSeq, packets, 0);
  }

  /** A parsed batch with the given envelope and, in order, the payloads of the given packets. */
  ghost predicate Carries(b: Batch, version: byte, session: uint32, firstSeq: uint32, flags: byte,
                          packets: seq<Packet>)
  {
    && b.version == version && b.session == session && b.firstSeq == firstSeq && b.flags == flags
    && |b.frames| == (if packets == [] then 1 else |packets|)
    && (packets == [] ==> b.frames[0] == Frame(session, firstSeq, flags, []))
    && (version == V2 ==> b.packetCount == |packets|)
    && forall i :: 0 <= i < |packets| ==>
         && b.frames[i].session == session
         && b.frames[i].seqNo == packets[i].seqNo
         && b.frames[i].payload == packets[i].payload
         && b.frames[i].flags == (if version == V1 then flags else FrameFlags(flags, i, |packets|))
  }

  /** The parser accepts the wire form exactly when it may, and then recovers what was encoded. */
  ghost predicate ParsesBack(wire: seq<byte>, version: byte, session: uint32, firstSeq: uint32,
                             envelope: byte, packets: seq<Packet>)
  {
    && (ParseBatch(wire).Some? <==> Parsable(version, envelope, packets))
    && (ParseBatch(wire).Some? ==>
          Carries(ParseBatch(wire).value, version, session, firstSeq, UnionFlags(envelope, packets), packets))
  }

  /** Everything the encoder writes is parsed back, except bundles with an empty packet and
      packet-less frames that carry no END: those the parser refuses. */
  lemma ParseUndoesEncode(version: byte, session: uint32, firstSeq: uint32, envelope: byte,
                          packets: seq<Packet>, capacity: nat)
    requires |packets| < 0x100
    requires Encode(version, session, firstSeq, envelope, packets, capacity).Wire?
    ensures var wire := Encode(version, session, firstSeq, envelope, packets, capacity).octets;
      && |wire| == HEADER_SIZE + |Body(version, packets)| <= capacity
      && ParsesBack(wire, version, session, firstSeq, envelope, packets)
  {
    EncodeForm(version, session, firstSeq, envelope, packets, capacity);
    hide Encode, Header, UnionFlags, Body, ParsesBack, AllShort;
    if version == V1 {
      V1ParsesBack(session, firstSeq, envelope, packets);
    } else if packets == [] {
      EndParsesBack(session, firstSeq, envelope, packets);
    } else {
      BundleParsesBack(session, firstSeq, envelope, packets);
    }
  }

  lemma V1ParsesBack(session: uint32, firstSeq: uint32, envelope: byte, packets: seq<Packet>)
    requires |packets| == 1 && |Body(V1, packets)| < 0x1_0000
    requires packets[0].seqNo == SeqAfter(firstSeq, 0)
    ensures var body := Body(V1, packets);
      ParsesBack(Header(V1, session, firstSeq, UnionFlags(envelope, packets), 0, |body|) + body,
                 V1, session, firstSeq, envelope, packets)
  {
    BodyOfOne(packets);
    ParseOfV1(session, firstSeq, UnionFlags(envelope, packets), packets[0].payload);
    hide Header, UnionFlags, Body, ParseBatch, Le;
  }

  lemma EndParsesBack(session: uint32, firstSeq: uint32, envelope: byte, packets: seq<Packet>)
    requires packets == []
    ensures var body := Body(V2, packets);
      ParsesBack(Header(V2, session, firstSeq, UnionFlags(envelope, packets), 0, |body|) + body,
                 V2, session, firstSeq, envelope, packets)
  {
    ParseOfEnd(session, firstSeq, envelope);
    hide Header, ParseBatch, Le;
  }

  lemma BundleParsesBack(session: uint32, firstSeq: uint32, envelope: byte, packets: seq<Packet>)
    requires 0 < |packets| < 0x100 && |Body(V2, packets)| < 0x1_0000 && AllShort(packets)
    requires forall i :: 0 <= i < |packets| ==> packets[i].seqNo == SeqAfter(firstSeq, i)
    ensures var body := Body(V2, packets);
      ParsesBack(Header(V2, session, firstSeq, UnionFlags(envelope, packets), |packets|, |body|) + body,
                 V2, session, firstSeq, envelope, packets)
  {
    var flags, body := UnionFlags(envelope, packets), Body(V2, packets);
    SplitOfBody(packets);
    ParseOfBundle(session, firstSeq, flags, |packets|, body);
    BundleCarries(session, firstSeq, flags, packets);
    hide Header, UnionFlags, Body, SplitPackets, ParseBatch, NoneEmpty, AllShort, Le, NumberedFrames, Payloads,
      Carries;
  }

  lemma BodyOfOne(packets: seq<Packet>)
    requires |packets| == 1
    ensures Body(V1, packets) == packets[0].payload
  {
    assert packets[1..] == [];
  }

  lemma BundleCarries(session: uint32, firstSeq: uint32, flags: byte, packets: seq<Packet>)
    requires 0 < |packets| < 0x100
    requires forall i :: 0 <= i < |packets| ==> packets[i].seqNo == SeqAfter(firstSeq, i)
    ensures Carries(Batch(V2, session, firstSeq, |packets|, flags,
                          NumberedFrames(session, firstSeq, flags, Payloads(packets), |packets|)),
                    V2, session, firstSeq, flags, packets)
  {
  }

  lemma ParseOfV1(session: uint32, firstSeq: uint32, flags: byte, body: seq<byte>)
    requires |body| < 0x1_0000
    ensures ParseBatch(Header(V1, session, firstSeq, flags, 0, |body|) + body)
         == Some(Batch(V1, session, firstSeq, if body == [] && HasEnd(flags) then 0 else 1, flags,
                       [Frame(session, firstSeq, flags, body)]))
  {
    HeaderReads(V1, session, firstSeq, flags, 0, |body|, body);
    hide Header, Le, ReadLe, ReadLe16, ReadLe32;
  }

  lemma ParseOfEnd(session: uint32, firstSeq: uint32, flags: byte)
    ensures ParseBatch(Header(V2, session, firstSeq, flags, 0, 0) + [])
         == if HasEnd(flags)
            then Some(Batch(V2, session, firstSeq, 0, flags, [Frame(session, firstSeq, flags, [])]))
            else None
  {
    HeaderReads(V2, session, firstSeq, flags, 0, 0, []);
    hide Header, Le, ReadLe, ReadLe16, ReadLe32;
  }

  lemma ParseOfBundle(session: uint32, firstSeq: uint32, flags: byte, count: byte, body: seq<byte>)
    requires |body| < 0x1_0000 && count > 0
    ensures ParseBatch(Header(V2, session, firstSeq, flags, count, |body|) + body)
         == var payloads := SplitPackets(body, count);
            if payloads.None? then None
            else Some(Batch(V2, session, firstSeq, count, flags,
                            NumberedFrames(session, firstSeq, flags, payloads.value, count)))
  {
    HeaderReads(V2, session, firstSeq, flags, count, |body|, body);
    hide Header, Le, ReadLe, ReadLe16, ReadLe32, SplitPackets, NumberedFrames;
  }

  // ---- flags: a bundle has one flag octet for all its packets ----

  lemma {:induction false} UnionBits(flags: byte, packets: seq<Packet>)
    ensures HasStart(UnionFlags(flags, packets))
      <==> HasStart(flags) || exists i :: 0 <= i < |packets| && HasStart(packets[i].flags)
    ensures HasEnd(UnionFlags(flags, packets))
      <==> HasEnd(flags) || exists i :: 0 <= i < |packets| && HasEnd(packets[i].flags)
    decreases packets
  {
    if packets != [] {
      var rest := packets[1..];
      UnionBits(OrFlags(flags, packets[0].flags), rest);
      OrFlagsBits(flags, packets[0].flags);
      hide OrFlags, HasStart, HasEnd;
      assert forall i :: 0 < i < |packets| ==> packets[i] == rest[i - 1];
      assert forall i :: 0 <= i < |rest| ==> rest[i] == packets[i + 1];
    }
  }

  /** START on no packet but the first, END on none but the last, no other mark, and an
      envelope that adds nothing: what a caller can check before encoding. */
  ghost predicate MarksOnlyAtEnds(envelope: byte, packets: seq<Packet>)
    requires packets != []
  {
    && (forall i :: 0 <= i < |packets| ==> packets[i].flags < 4)
    && (forall i :: 0 < i < |packets| ==> !HasStart(packets[i].flags))
    && (forall i :: 0 <= i < |packets| - 1 ==> !HasEnd(packets[i].flags))
    && (HasStart(envelope) ==> HasStart(packets[0].flags))
    && (HasEnd(envelope) ==> HasEnd(packets[|packets| - 1].flags))
  }

  ghost predicate FlagsSurvive(envelope: byte, packets: seq<Packet>) {
    forall i :: 0 <= i < |packets| ==>
      FrameFlags(UnionFlags(envelope, packets), i, |packets|) == packets[i].flags
  }

  /** Every packet gets its own flags back exactly when the marks sit at the bundle's ends. */
  lemma FlagsSurviveIff(envelope: byte, packets: seq<Packet>)
    requires packets != []
    ensures FlagsSurvive(envelope, packets) <==> MarksOnlyAtEnds(envelope, packets)
  {
    var union, last := UnionFlags(envelope, packets), |packets| - 1;
    UnionBits(envelope, packets);
    forall i | 0 <= i < |packets|
      ensures FrameFlags(union, i, |packets|) == packets[i].flags
        <==> && packets[i].flags < 4
             && (HasStart(packets[i].flags) <==> i == 0 && HasStart(union))
             && (HasEnd(packets[i].flags) <==> i == last && HasEnd(union))
    {
      MarksDecide(union, i, |packets|, packets[i].flags);
    }
    if FlagsSurvive(envelope, packets) {
      assert HasStart(packets[0].flags) <==> HasStart(union);
      assert HasEnd(packets[last].flags) <==> HasEnd(union);
    }
  }

  lemma MarksDecide(union: byte, i: nat, count: nat, flags: byte)
    ensures FrameFlags(union, i, count) == flags
      <==> && flags < 4
           && (HasStart(flags) <==> i == 0 && HasStart(union))
           && (HasEnd(flags) <==> i + 1 == count && HasEnd(union))
  {
    assert flags == flags % 2 + 2 * (flags / 2 % 2) + 4 * (flags / 4);
  }

  // ---- the wire form is canonical ----

  /** The packets the encoder would be given to say what a parsed batch says. */
  function PacketsOf(batch: Batch): seq<Packet>
    requires forall f :: f in batch.frames ==> |f.payload| < 0x1_0000
  {
    if batch.packetCount == 0 && batch.version == V2 then []
    else seq(|batch.frames|, i requires 0 <= i < |batch.frames| =>
           Packet(batch.frames[i].seqNo, batch.frames[i].flags, batch.frames[i].payload))
  }

  lemma {:induction false} BodyOfSplit(body: seq<byte>, count: nat, packets: seq<Packet>)
    requires |packets| == count && SplitPackets(body, count) == Some(Payloads(packets))
    ensures Body(V2, packets) == body
    ensures forall i :: 0 <= i < count ==> 0 < |packets[i].payload| < 0x100
    decreases count
  {
    if count > 0 {
      var rest := packets[1..];
      var length, tail := SplitFirst(body, packets);
      hide SplitPackets, Payloads, Body;
      BodyOfSplit(tail, count - 1, rest);
      BodyCons(packets);
    }
  }

  lemma SplitFirst(body: seq<byte>, packets: seq<Packet>) returns (length: byte, tail: seq<byte>)
    requires packets != [] && SplitPackets(body, |packets|) == Some(Payloads(packets))
    ensures length == |packets[0].payload| > 0
    ensures body == [length] + packets[0].payload + tail
    ensures SplitPackets(tail, |packets| - 1) == Some(Payloads(packets[1..]))
  {
    length := body[0];
    tail := body[1 + length..];
    PayloadsCons(packets);
    hide Payloads;
    var split := SplitPackets(tail, |packets| - 1);
    SameCons(body[1..1 + length], split.value, packets[0].payload, Payloads(packets[1..]));
  }

  lemma SameCons<T>(x: T, xs: seq<T>, y: T, ys: seq<T>)
    requires [x] + xs == [y] + ys
    ensures x == y && xs == ys
  {
    assert ([x] + xs)[0] == x && ([y] + ys)[0] == y;
    assert ([x] + xs)[1..] == xs && ([y] + ys)[1..] == ys;
  }

  lemma {:induction false} SplitIsShort(body: seq<byte>, count: nat)
    requires SplitPackets(body, count).Some?
    ensures forall p :: p in SplitPackets(body, count).value ==> |p| < 0x100
    decreases count
  {
    if count > 0 {
      SplitIsShort(body[1 + body[0]..], count - 1);
    }
  }

  lemma ParsedPayloadsFit(data: seq<byte>)
    requires ParseBatch(data).Some?
    ensures forall f :: f in ParseBatch(data).value.frames ==> |f.payload| < 0x1_0000
  {
    var batch := ParseBatch(data).value;
    hide ReadLe;
    if batch.version == V2 && batch.packetCount > 0 {
      SplitIsShort(data[HEADER_SIZE..], batch.packetCount);
    }
  }

  lemma {:induction false} ScanOfNumbered(version: byte, firstSeq: uint32, packets: seq<Packet>, index: nat)
    requires index <= |packets|
    requires forall i :: 0 <= i < |packets| ==> packets[i].seqNo == SeqAfter(firstSeq, i)
    requires version == V2 ==> forall i :: 0 <= i < |packets| ==> |packets[i].payload| < 0x100
    ensures ScanError(version, firstSeq, packets, index).None?
    decreases |packets| - index
  {
    if index < |packets| {
      ScanOfNumbered(version, firstSeq, packets, index + 1);
    }
  }

  lemma {:induction false} UnionOfMarks(flags: byte, packets: seq<Packet>)
    requires forall p :: p in packets ==> p.flags < 4
    requires forall p :: p in packets ==> (HasStart(p.flags) ==> HasStart(flags)) && (HasEnd(p.flags) ==> HasEnd(flags))
    ensures UnionFlags(flags, packets) == flags
  {
    if packets != [] {
      OrAbsorbsMarks(flags, packets[0].flags);
      UnionOfMarks(flags, packets[1..]);
    }
  }

  lemma HeaderFromReads(data: seq<byte>)
    requires |data| >= HEADER_SIZE
    ensures data == [data[0], data[1]] + Le(ReadLe16(data[2..4]), 2) + Le(ReadLe32(data[4..8]), 4)
                  + Le(ReadLe32(data[8..12]), 4) + [data[12], data[13]] + Le(ReadLe16(data[14..16]), 2)
                  + data[HEADER_SIZE..]
  {
    LeOfRead(data[2..4]);
    LeOfRead(data[4..8]);
    LeOfRead(data[8..12]);
    LeOfRead(data[14..16]);
    hide Le, ReadLe;
    assert data == data[..2] + data[2..4] + data[4..8] + data[8..12] + data[12..14] + data[14..16] + data[16..];
    assert data[..2] == [data[0], data[1]];
    assert data[12..14] == [data[12], data[13]];
  }

  lemma NumberedPackets(batch: Batch, payloads: seq<seq<byte>>)
    requires batch.version == V2 && batch.packetCount > 0 && |payloads| == batch.packetCount
    requires batch.frames == NumberedFrames(batch.session, batch.firstSeq, batch.flags, payloads, batch.packetCount)
    requires forall f :: f in batch.frames ==> |f.payload| < 0x1_0000
    ensures var packets := PacketsOf(batch);
      && Payloads(packets) == payloads
      && (forall i :: 0 <= i < |packets| ==> packets[i].seqNo == SeqAfter(batch.firstSeq, i))
      && UnionFlags(batch.flags, packets) == batch.flags
  {
    var packets := PacketsOf(batch);
    assert forall i :: 0 <= i < |packets| ==> packets[i].flags == FrameFlags(batch.flags, i, batch.packetCount);
    UnionOfMarks(batch.flags, packets);
  }

  /** The parsed frames as packets: they spell the body, and their marks are in the envelope. */
  ghost predicate Spells(b: Batch, body: seq<byte>)
    requires forall f :: f in b.frames ==> |f.payload| < 0x1_0000
  {
    var packets := PacketsOf(b);
    && |packets| == b.packetCount
    && ScanError(V2, b.firstSeq, packets, 0).None?
    && UnionFlags(b.flags, packets) == b.flags
    && Body(V2, packets) == body
  }

  lemma {:induction false} ParsedSpells(data: seq<byte>)
    requires ParseBatch(data).Some? && ParseBatch(data).value.version == V2
    ensures forall f :: f in ParseBatch(data).value.frames ==> |f.payload| < 0x1_0000
    ensures Spells(ParseBatch(data).value, data[HEADER_SIZE..])
  {
    ParsedPayloadsFit(data);
    var b := ParseBatch(data).value;
    var packets, body := PacketsOf(b), data[HEADER_SIZE..];
    if b.packetCount > 0 {
      var payloads := SplitPackets(body, b.packetCount).value;
      NumberedPackets(b, payloads);
      hide ParseBatch, PacketsOf, SplitPackets, NumberedFrames, Payloads, Body, ScanError;
      BodyOfSplit(body, b.packetCount, packets);
      ScanOfNumbered(V2, b.firstSeq, packets, 0);
    } else {
      assert packets == [] && body == [];
    }
  }

  /** Re-encoding an accepted v2 notification with its own flags and frames gives its octets back. */
  lemma EncodeUndoesParse(data: seq<byte>)
    requires ParseBatch(data).Some? && ParseBatch(data).value.version == V2
    ensures forall f :: f in ParseBatch(data).value.frames ==> |f.payload| < 0x1_0000
    ensures var b := ParseBatch(data).value;
      Encode(V2, b.session, b.firstSeq, b.flags, PacketsOf(b), |data|) == Wire(data)
  {
    ParsedSpells(data);
    HeaderIsRead(data);
    hide ParseBatch, PacketsOf, Header, UnionFlags, ScanError, Body;
  }

  lemma HeaderIsRead(data: seq<byte>)
    requires ParseBatch(data).Some? && ParseBatch(data).value.version == V2
    ensures var b := ParseBatch(data).value;
      && |data| < HEADER_SIZE + 0x1_0000
      && Header(V2, b.session, b.firstSeq, b.flags, b.packetCount, |data| - HEADER_SIZE)
         + data[HEADER_SIZE..] == data
  {
    HeaderFromReads(data);
    hide Le, ReadLe, SplitPackets;
  }

  /** Two accepted v2 notifications that parse alike are the same octets. */
  lemma ParsingIsInjective(a: seq<byte>, b: seq<byte>)
    requires ParseBatch(a).Some? && ParseBatch(a).value.version == V2
    requires ParseBatch(a) == ParseBatch(b)
    ensures a == b
  {
    EncodeUndoesParse(a);
    EncodeUndoesParse(b);
    EncodeIgnoresCapacity(ParseBatch(a).value, |a|, |b|);
  }

  lemma EncodeIgnoresCapacity(b: Batch, m: nat, n: nat)
    requires forall f :: f in b.frames ==> |f.payload| < 0x1_0000
    requires |PacketsOf(b)| < 0x100
    requires Encode(V2, b.session, b.firstSeq, b.flags, PacketsOf(b), m).Wire?
    requires Encode(V2, b.session, b.firstSeq, b.flags, PacketsOf(b), n).Wire?
    ensures Encode(V2, b.session, b.firstSeq, b.flags, PacketsOf(b), m)
         == Encode(V2, b.session, b.firstSeq, b.flags, PacketsOf(b), n)
  {
  }

  /** v1 has a reserved octet the parser skips: only a zero there is what the encoder writes. */
  lemma V1CanonicalIffReservedIsZero(data: seq<byte>)
    requires ParseBatch(data).Some? && ParseBatch(data).value.version == V1
    ensures |data| < 0x1_0010
    ensures var b := ParseBatch(data).value;
      Encode(V1, b.session, b.firstSeq, b.flags, [Packet(b.firstSeq, 0, data[HEADER_SIZE..])], |data|) == Wire(data)
      <==> data[13] == 0
  {
    var b := ParseBatch(data).value;
    var packet, body := Packet(b.firstSeq, 0, data[HEADER_SIZE..]), data[HEADER_SIZE..];
    V1Encoding(b.session, b.firstSeq, b.flags, packet, |data|);
    var h := Header(V1, b.session, b.firstSeq, b.flags, 0, |body|);
    HeaderFromReads(data);
    hide Le, ReadLe, Encode;
    assert (h + body)[13] == 0;
    assert data[13] == 0 ==> h + body == data;
  }

  lemma V1Encoding(session: uint32, firstSeq: uint32, flags: byte, packet: Packet, capacity: nat)
    requires packet.seqNo == firstSeq && packet.flags == 0
    requires capacity == HEADER_SIZE + |packet.payload|
    ensures Encode(V1, session, firstSeq, flags, [packet], capacity)
         == Wire(Header(V1, session, firstSeq, flags, 0, |packet.payload|) + packet.payload)
  {
    BodyOfOne([packet]);
    UnionOfMarks(flags, [packet]);
    assert [packet][0].seqNo == SeqAfter(firstSeq, 0);
    ScanOfNumbered(V1, firstSeq, [packet], 0);
    hide Header, UnionFlags, ScanError, Body, Le;
  }

  // ---- the Windows parser, which knows v1 only ----

  function ParseAudioFrame(data: seq<byte>): Option<Frame> {
    if |data| < HEADER_SIZE || data[0] != V1 || data[1] != TYPE_AUDIO then None
    else if ReadLe16(data[2..4]) != HEADER_SIZE then None
    else
      var payloadLen := ReadLe16(data[14..16]);
      if |data| < HEADER_SIZE + payloadLen then None
      else Some(Frame(ReadLe32(data[4..8]), ReadLe32(data[8..12]), data[12],
                      data[HEADER_SIZE..HEADER_SIZE + payloadLen]))
  }

  /** Windows accepts exactly the notifications that begin with a v1 frame macOS accepts, and reads
      the same frame from them: it differs only in ignoring octets after the frame. */
  lemma WindowsReadsLeadingV1Frame(data: seq<byte>)
    ensures ParseAudioFrame(data).Some? <==>
      exists n :: 0 <= n <= |data| && ParseBatch(data[..n]).Some? && ParseBatch(data[..n]).value.version == V1
    ensures forall n ::
      (0 <= n <= |data| && ParseBatch(data[..n]).Some? && ParseBatch(data[..n]).value.version == V1
       ==> ParseBatch(data[..n]).value.frames == [ParseAudioFrame(data).value])
  {
    hide ReadLe16, ReadLe32;
    if |data| >= HEADER_SIZE {
      forall n | HEADER_SIZE <= n <= |data|
        ensures data[..n][2..4] == data[2..4] && data[..n][4..8] == data[4..8]
             && data[..n][8..12] == data[8..12] && data[..n][14..16] == data[14..16]
             && data[..n][HEADER_SIZE..] == data[HEADER_SIZE..n]
      {
      }
      var n := HEADER_SIZE + ReadLe16(data[14..16]);
      if ParseAudioFrame(data).Some? {
        assert ParseBatch(data[..n]).Some? && ParseBatch(data[..n]).value.version == V1;
      }
    }
  }
}
