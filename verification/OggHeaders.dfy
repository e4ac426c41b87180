/** What a decoder learns from the two header packets of every stream, after section 5 of RFC 7845. */
module OggHeaders {
  import opened Optional
  import opened Bytes
  import opened OggPage
  import opened OggMuxer
  import opened OggRoundTrip

  /** The octets of an ASCII text. */
  function Ascii(text: string): seq<byte>
    requires forall i :: 0 <= i < |text| ==> text[i] < 128 as char
  {
    seq(|text|, i requires 0 <= i < |text| => text[i] as int)
  }

  // ---- readers, by octet positions ----

  datatype Identification = Identification(version: byte, channels: byte, preSkip: uint16, rate: uint32, gain: uint16,
                                           family: byte)

  /** Section 5.1 of RFC 7845, for channel mapping family 0. */
  function ReadIdentification(packet: seq<byte>): Option<Identification> {
    if |packet| != 19 || packet[..8] != Ascii("OpusHead") then None
    else
      Some(Identification(packet[8], packet[9], ReadLe16(packet[10..12]), ReadLe32(packet[12..16]),
                          ReadLe16(packet[16..18]), packet[18]))
  }

  datatype Comments = Comments(vendor: seq<byte>, comments: seq<seq<byte>>)

  /** A length and so many octets, and what follows them. */
  function ReadText(octets: seq<byte>): (r: Option<(seq<byte>, seq<byte>)>)
    ensures r.Some? ==> |r.value.1| < |octets|
  {
    if |octets| < 4 || |octets| - 4 < ReadLe32(octets[..4]) then None
    else
      var end := 4 + ReadLe32(octets[..4]);
      Some((octets[4..end], octets[end..]))
  }

  function ReadTexts(octets: seq<byte>, count: nat): Option<seq<seq<byte>>>
    decreases count
  {
    if count == 0 then if octets == [] then Some([]) else None
    else
      var first := ReadText(octets);
      if first.None? then None
      else
        var rest := ReadTexts(first.value.1, count - 1);
        if rest.None? then None else Some([first.value.0] + rest.value)
  }

  /** Section 5.2 of RFC 7845. */
  function ReadComments(packet: seq<byte>): Option<Comments> {
    if |packet| < 8 || packet[..8] != Ascii("OpusTags") then None
    else
      var vendor := ReadText(packet[8..]);
      if vendor.None? || |vendor.value.1| < 4 then None
      else
        var comments := ReadTexts(vendor.value.1[4..], ReadLe32(vendor.value.1[..4]));
        if comments.None? then None else Some(Comments(vendor.value.0, comments.value))
  }

  // ---- what the muxer writes ----

  lemma {:induction false} Parts<T>(a: seq<T>, b: seq<T>, c: seq<T>, d: seq<T>, e: seq<T>, f: seq<T>)
    requires |a| == 8 && |b| == 2 && |c| == 2 && |d| == 4 && |e| == 2 && |f| == 1
    ensures var p := a + b + c + d + e + f;
      && |p| == 19 && p[..8] == a && p[8] == b[0] && p[9] == b[1] && p[10..12] == c && p[12..16] == d
      && p[16..18] == e && p[18] == f[0]
  {
  }

  lemma {:induction false} HeadReads(rate: Rate, channels: byte)
    ensures ReadIdentification(OpusHead(rate, channels)) == Some(Identification(1, channels, 312, rate, 0, 0))
  {
    ReadOfLe16(312);
    ReadOfLe32(rate);
    ReadOfLe16(0);
    var mark: seq<byte> := [0x4f, 0x70, 0x75, 0x73, 0x48, 0x65, 0x61, 0x64];
    assert mark == Ascii("OpusHead");
    hide Le, ReadLe, Ascii;
    Parts(mark, [1, channels], Le(312, 2), Le(rate, 4), Le(0, 2), [0]);
  }

  lemma {:induction false} TextReads(text: seq<byte>, rest: seq<byte>)
    requires |text| < TWO_TO_THE_32
    ensures ReadText(Le(|text|, 4) + text + rest) == Some((text, rest))
  {
    ReadOfLe32(|text|);
    hide Le, ReadLe;
    var octets := Le(|text|, 4) + text + rest;
    assert octets[..4] == Le(|text|, 4) && octets[4..4 + |text|] == text && octets[4 + |text|..] == rest;
  }

  lemma {:induction false} NoCommentsRead(vendor: seq<byte>)
    requires |vendor| < TWO_TO_THE_32
    ensures ReadComments(Ascii("OpusTags") + (Le(|vendor|, 4) + vendor + Le(0, 4))) == Some(Comments(vendor, []))
  {
    TextReads(vendor, Le(0, 4));
    ReadOfLe32(0);
    hide Le, ReadLe, ReadText, Ascii;
    var mark, rest := Ascii("OpusTags"), Le(|vendor|, 4) + vendor + Le(0, 4);
    assert (mark + rest)[..8] == mark && (mark + rest)[8..] == rest;
    assert Le(0, 4)[..4] == Le(0, 4) && Le(0, 4)[4..] == [];
  }

  lemma {:induction false} TagsRead()
    ensures ReadComments(OpusTags()) == Some(Comments(Ascii("VoiceStick"), []))
  {
    var mark: seq<byte> := [0x4f, 0x70, 0x75, 0x73, 0x54, 0x61, 0x67, 0x73];
    var vendor: seq<byte> := [0x56, 0x6f, 0x69, 0x63, 0x65, 0x53, 0x74, 0x69, 0x63, 0x6b];
    assert mark == Ascii("OpusTags") && vendor == Ascii("VoiceStick");
    hide ReadComments, Le, Ascii;
    NoCommentsRead(vendor);
    Regroup(mark, Le(10, 4), vendor, Le(0, 4));
  }

  lemma {:induction false} Regroup<T>(a: seq<T>, b: seq<T>, c: seq<T>, d: seq<T>)
    ensures a + b + c + d == a + (b + c + d)
  {
  }

  // ---- main results ----

  predicate StartWithHeaders(packets: seq<seq<byte>>, rate: Rate, channels: byte) {
    && |packets| >= 2
    && ReadIdentification(packets[0]) == Some(Identification(1, channels, 312, rate, 0, 0))
    && ReadComments(packets[1]) == Some(Comments(Ascii("VoiceStick"), []))
  }

  lemma {:induction false} HeadersStart(rate: Rate, channels: byte, rest: seq<seq<byte>>)
    ensures StartWithHeaders([OpusHead(rate, channels), OpusTags()] + rest, rate, channels)
  {
    HeadReads(rate, channels);
    TagsRead();
    hide OpusHead, OpusTags, ReadIdentification, ReadComments, Ascii;
  }

  /** Whatever is muxed, a reader finds the stream's two headers in its first two packets: version 1, the muxer's
      channels and rate, a pre-skip of 312 samples, no gain, family 0; then the vendor and no comments. */
  lemma {:induction false} HeadersAreRead(rate: Rate, channels: byte, calls: seq<Call>)
    requires calls != [] && AllTaken(calls)
    ensures var pages := Pages(rate, channels, Fresh(), calls);
      && (forall i :: 0 <= i < |pages| ==> pages[i].Valid())
      && StartWithHeaders(Packets(pages, Nothing), rate, channels)
  {
    ReaderRecovers(rate, channels, calls);
    hide *;
    HeadersStart(rate, channels, Recoverable(calls));
  }

  /** The granule position counts samples at 48 kHz: one step is what 960 samples at the input rate last. */
  lemma {:induction false} StepIsDuration(rate: Rate)
    ensures GranuleStep(rate) * rate <= 960 * 48000 < (GranuleStep(rate) + 1) * rate
    ensures (960 * 48000) % rate == 0 ==> GranuleStep(rate) * rate == 960 * 48000
  {
    var total, step := 960 * 48000, GranuleStep(rate);
    assert total == rate * step + total % rate;
  }
}
