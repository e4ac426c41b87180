/** The frames octet by octet, as the protocol lays them out; every multi-octet field has its low octet first. */
module WireLayout {
  import opened Optional
  import opened Bytes
  import opened OtaProtocol
  import A = AudioTransport
  import opened AudioDelivery

  function U16(octets: seq<byte>, at: nat): nat
    requires at + 2 <= |octets|
  {
    var low: int, high: int := octets[at], octets[at + 1];
    low + 0x100 * high
  }

  function U32(octets: seq<byte>, at: nat): nat
    requires at + 4 <= |octets|
  {
    U16(octets, at) + 0x1_0000 * U16(octets, at + 2)
  }

  lemma {:induction false} WordsRead(octets: seq<byte>, at: nat)
    ensures at + 2 <= |octets| ==> ReadLe16(octets[at..at + 2]) == U16(octets, at)
    ensures at + 4 <= |octets| ==> ReadLe32(octets[at..at + 4]) == U32(octets, at)
  {
    if at + 2 <= |octets| {
      var w := octets[at..at + 2];
      assert ReadLe(w[1..]) == w[1] + 256 * ReadLe(w[1..][1..]);
    }
    if at + 4 <= |octets| {
      var w := octets[at..at + 4];
      var x, y, z := w[1..], w[1..][1..], w[1..][1..][1..];
      assert ReadLe(z) == w[3] + 256 * ReadLe(z[1..]) && ReadLe(z[1..]) == 0;
      assert ReadLe(y) == w[2] + 256 * ReadLe(z);
      assert ReadLe(x) == w[1] + 256 * ReadLe(y);
    }
  }

  // ---- the firmware update channel ----

  /** The four frames a host writes. */
  predicate LaidOut(w: seq<byte>, command: Command) {
    match command
    case Begin(imageSize, id) =>
      |w| == 12 && w[0] == 1 && w[1] == 0x20 && U16(w, 2) == 12 && U32(w, 4) == imageSize && U32(w, 8) == id
    case Data(id, offset, payload) =>
      |w| >= 12 && w[0] == 1 && w[1] == 0x21 && U16(w, 2) == 12 && U32(w, 4) == id && U32(w, 8) == offset
      && w[12..] == payload
    case End(id, imageSize) =>
      |w| == 12 && w[0] == 1 && w[1] == 0x22 && U16(w, 2) == 12 && U32(w, 4) == id && U32(w, 8) == imageSize
    case Abort(id) => |w| == 8 && w[0] == 1 && w[1] == 0x23 && U16(w, 2) == 8 && U32(w, 4) == id
  }

  /** A host's frame for a command is the one write that is laid out for it. */
  lemma {:induction false} FrameIsLaidOut(w: seq<byte>, command: Command)
    requires command.Fits()
    ensures w == Frame(command) <==> LaidOut(w, command)
  {
    DecodeUndoesFrame(command);
    if w == Frame(command) {
      hide Decode, LaidOut, Frame;
      DecodedIsLaidOut(w, command);
    }
    if LaidOut(w, command) {
      LaidOutDecodes(w, command);
      FrameUndoesDecode(w);
      hide Decode, LaidOut, Frame;
      assert w[..|w|] == w;
    }
  }

  lemma {:induction false} LaidOutDecodes(w: seq<byte>, command: Command)
    requires command.Fits() && LaidOut(w, command)
    ensures |w| < 0x1_0000 && Decode(w) == Execute(command) && Significant(w) == |w|
  {
    WordsRead(w, 2);
    WordsRead(w, 4);
    WordsRead(w, 8);
    hide ReadLe, U16, U32;
  }

  lemma {:induction false} DecodedIsLaidOut(w: Write, command: Command)
    requires Decode(w) == Execute(command) && w == Frame(command)
    ensures LaidOut(w, command)
  {
    assert |w| == match command case Data(_, _, payload) => 12 + |payload| case Abort(_) => 8 case _ => 12;
    hide Frame;
    WordsRead(w, 2);
    WordsRead(w, 4);
    WordsRead(w, 8);
    hide ReadLe, U16, U32;
  }

  /** A write of a known kind, and the header length that kind has. */
  function HeaderLength(kind: byte): Option<nat> {
    match kind
    case 0x20 => Some(12)
    case 0x21 => Some(12)
    case 0x22 => Some(12)
    case 0x23 => Some(8)
    case _ => None
  }

  /** Every write is taken or refused by its first four octets and its length: it is too short to have a header
      or its header length is not that of its kind; or it is unlikely, of another version or an unknown kind or
      claiming a header longer than itself. */
  lemma {:induction false} WriteIsRefusedIff(w: Write)
    ensures Decode(w) == Refuse(InvalidLength) <==>
      || |w| < 4
      || (w[0] == 1 && U16(w, 2) <= |w| && HeaderLength(w[1]).Some? && HeaderLength(w[1]) != Some(U16(w, 2)))
    ensures Decode(w) == Refuse(Unlikely) <==>
      |w| >= 4 && (w[0] != 1 || U16(w, 2) > |w| || HeaderLength(w[1]).None?)
    ensures Decode(w).Execute? <==>
      |w| >= 4 && w[0] == 1 && U16(w, 2) <= |w| && HeaderLength(w[1]) == Some(U16(w, 2))
  {
    WordsRead(w, 2);
    hide ReadLe, U16;
  }

  // ---- audio frames and acknowledgements ----

  /** The sixteen octets in front of every audio frame. */
  predicate HeaderLaidOut(h: seq<byte>, version: byte, session: uint32, seqNo: uint32, flags: byte, count: byte,
                          payloadLen: uint16) {
    && |h| == 16 && h[0] == version && h[1] == 1 && U16(h, 2) == 16 && U32(h, 4) == session && U32(h, 8) == seqNo
    && h[12] == flags && h[13] == count && U16(h, 14) == payloadLen
  }

  lemma {:induction false} HeaderSlices<T>(a: seq<T>, b: seq<T>, c: seq<T>, d: seq<T>, e: seq<T>, f: seq<T>)
    requires |a| == 2 && |b| == 2 && |c| == 4 && |d| == 4 && |e| == 2 && |f| == 2
    ensures var h := a + b + c + d + e + f;
      && |h| == 16 && h[0] == a[0] && h[1] == a[1] && h[2..4] == b && h[4..8] == c && h[8..12] == d
      && h[12] == e[0] && h[13] == e[1] && h[14..16] == f
  {
  }

  lemma {:induction false} HeaderOfSlices(h: seq<byte>)
    requires |h| == 16
    ensures h == [h[0], h[1]] + h[2..4] + h[4..8] + h[8..12] + [h[12], h[13]] + h[14..16]
  {
  }

  /** The header the device writes is the one that is laid out so. */
  lemma {:induction false} HeaderIsLaidOut(h: seq<byte>, version: byte, session: uint32, seqNo: uint32, flags: byte,
                                           count: byte, payloadLen: uint16)
    ensures h == A.Header(version, session, seqNo, flags, count, payloadLen)
      <==> HeaderLaidOut(h, version, session, seqNo, flags, count, payloadLen)
  {
    HeaderSlices([version, A.TYPE_AUDIO], Le(A.HEADER_SIZE, 2), Le(session, 4), Le(seqNo, 4), [flags, count],
                 Le(payloadLen, 2));
    if |h| == 16 {
      HeaderOfSlices(h);
      WordsRead(h, 2);
      WordsRead(h, 4);
      WordsRead(h, 8);
      WordsRead(h, 14);
      WordIs(h[2..4], A.HEADER_SIZE);
      WordIs(h[4..8], session);
      WordIs(h[8..12], seqNo);
      WordIs(h[14..16], payloadLen);
    }
    hide Le, ReadLe, U16, U32, ReadLe16, ReadLe32;
  }

  /** Octets are the little-endian form of a number if and only if they read as it. */
  lemma {:induction false} WordIs(octets: seq<byte>, value: nat)
    requires value < Pow256(|octets|)
    ensures octets == Le(value, |octets|) <==> ReadLe(octets) == value
  {
    ReadOfLe(value, |octets|);
    SmallRemainder(value, Pow256(|octets|));
    hide Le, ReadLe, Pow256;
    LeOfRead(octets);
  }

  lemma {:induction false} SmallRemainder(value: nat, p: nat)
    requires value < p
    ensures value % p == value
  {
  }

  /** The twelve octets a host acknowledges with. */
  predicate AckLaidOut(w: seq<byte>, session: uint32, nextSeq: uint32) {
    && |w| == 12 && w[0] == 2 && w[1] == 2 && U16(w, 2) == 12 && U32(w, 4) == session && U32(w, 8) == nextSeq
  }

  lemma {:induction false} AckIsLaidOut(w: seq<byte>, session: uint32, nextSeq: uint32)
    ensures w == AckPayload(session, nextSeq) <==> AckLaidOut(w, session, nextSeq)
  {
    AckReadsBack(session, nextSeq, w);
    WordsRead(w, 2);
    WordsRead(w, 4);
    WordsRead(w, 8);
    hide AckPayload, ReadLe, U16, U32, ReadLe16, ReadLe32;
  }
}
