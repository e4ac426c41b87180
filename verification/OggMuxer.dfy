/**
 The Ogg Opus muxer of the Windows client: one packet to a page, one lacing value to a packet.

 The functions say which pages a call emits and what it leaves in the muxer's fields, calls that throw
 half-way included; the class below them builds the octets, patches the checksum into place and moves the
 same fields.

 A run of calls is undone by the page reader, except for packets of exactly 255 octets, whose single lacing
 value does not end them.
 */
module OggMuxer {
  import opened Optional
  import opened Bytes
  import opened OggPage

  const SERIAL: uint32 := 0x5653_544b
  const TWO_TO_THE_64: nat := 0x1_0000_0000_0000_0000

  type Rate = r: int | 0 < r < TWO_TO_THE_32 witness 16000

  datatype Muxer = Muxer(wroteHeaders: bool, sequence: uint32, granule: nat)
  {
    predicate Valid() {
      granule < TWO_TO_THE_64
    }
  }

  datatype Call = Append(payload: seq<byte>, isLast: bool) | Finish

  datatype Output = Chunk(pages: seq<Page>) | Throws

  function Fresh(): Muxer {
    Muxer(false, 0, 0)
  }

  // ---- headers, after section 5 of RFC 7845 ----

  function OpusHead(rate: Rate, channels: byte): seq<byte> {
    [0x4f, 0x70, 0x75, 0x73, 0x48, 0x65, 0x61, 0x64] + [1, channels] + Le(312, 2) + Le(rate, 4) + Le(0, 2) + [0]
  }

  function OpusTags(): seq<byte> {
    [0x4f, 0x70, 0x75, 0x73, 0x54, 0x61, 0x67, 0x73] + Le(10, 4)
      + [0x56, 0x6f, 0x69, 0x63, 0x65, 0x53, 0x74, 0x69, 0x63, 0x6b] + Le(0, 4)
  }

  // ---- pages ----

  function PacketPage(m: Muxer, packet: seq<byte>, granule: nat, headerType: byte): Page
    requires |packet| < 0x100
  {
    Page(headerType, granule, SERIAL, m.sequence, [|packet|], packet)
  }

  function EmptyPage(m: Muxer, granule: nat, headerType: byte): Page {
    Page(headerType, granule, SERIAL, m.sequence, [], [])
  }

  function Counted(m: Muxer): Muxer {
    m.(sequence := (m.sequence + 1) % TWO_TO_THE_32)
  }

  function HeaderPages(rate: Rate, channels: byte, m: Muxer): seq<Page> {
    if m.wroteHeaders then []
    else
      [PacketPage(m, OpusHead(rate, channels), 0, BOS), PacketPage(Counted(m), OpusTags(), 0, 0)]
  }

  function WithHeaders(m: Muxer): Muxer {
    if m.wroteHeaders then m else Counted(Counted(m)).(wroteHeaders := true)
  }

  /** Samples of one packet at the 48 kHz clock of section 4 of RFC 7845; 2880 at 16 kHz. */
  function GranuleStep(rate: Rate): nat {
    960 * 48000 / rate
  }

  /** One packet further. */
  function Stepped(rate: Rate, m: Muxer): Muxer {
    m.(granule := (m.granule + GranuleStep(rate)) % TWO_TO_THE_64)
  }

  /** The state in which a packet's page is made: headers counted, one packet further. */
  function Moved(rate: Rate, m: Muxer): Muxer {
    Stepped(rate, WithHeaders(m))
  }

  /** The muxer's state after a call, and the pages the call returns. A packet that is too long is noticed
      only after the headers are counted and the granule position has moved. */
  function Do(rate: Rate, channels: byte, m: Muxer, call: Call): (Muxer, Output) {
    match call
    case Append(payload, isLast) =>
      if payload == [] then (m, Throws)
      else
        var moved := Moved(rate, m);
        if |payload| > 255 then (moved, Throws)
        else
          var page := PacketPage(moved, payload, moved.granule, if isLast then EOS else 0);
          (Counted(moved), Chunk(HeaderPages(rate, channels, m) + [page]))
    case Finish =>
      var ready := WithHeaders(m);
      (Counted(ready), Chunk(HeaderPages(rate, channels, m) + [EmptyPage(ready, m.granule, EOS)]))
  }

  lemma {:induction false} PagesAreValid(rate: Rate, channels: byte, m: Muxer, call: Call)
    requires m.Valid()
    ensures var (next, output) := Do(rate, channels, m, call);
      && next.Valid()
      && (output.Chunk? ==> forall i :: 0 <= i < |output.pages| ==> output.pages[i].Valid())
  {
    var (next, output) := Do(rate, channels, m, call);
    if output.Chunk? {
      forall i | 0 <= i < |output.pages|
        ensures output.pages[i].Valid()
      {
        OneLacing(output.pages[i]);
      }
    }
  }

  lemma {:induction false} AppendMoves(rate: Rate, channels: byte, m: Muxer, payload: seq<byte>, isLast: bool)
    requires payload != []
    ensures var moved, out := Moved(rate, m), Do(rate, channels, m, Append(payload, isLast));
      && (|payload| > 255 ==> out == (moved, Throws))
      && (|payload| <= 255 ==>
            var page := PacketPage(moved, payload, moved.granule, if isLast then EOS else 0);
            out == (Counted(moved), Chunk(HeaderPages(rate, channels, m) + [page])))
  {
    hide HeaderPages, Moved;
  }

  lemma {:induction false} OneLacing(p: Page)
    ensures p.lacing == [|p.body|] && p.granule < TWO_TO_THE_64 ==> p.Valid()
    ensures p.lacing == [] && p.body == [] && p.granule < TWO_TO_THE_64 ==> p.Valid()
  {
    if p.lacing == [|p.body|] {
      assert p.lacing[1..] == [];
    }
  }

  // ---- the muxer as it runs ----

  class OggOpusMuxer {
    const sampleRate: Rate
    const channels: byte
    var wroteHeaders: bool
    var sequence: uint32
    var granulePosition: nat

    function Model(): Muxer
      reads this
    {
      Muxer(wroteHeaders, sequence, granulePosition)
    }

    constructor (sampleRate: Rate, channels: byte)
      ensures this.sampleRate == sampleRate && this.channels == channels && Model() == Fresh()
    {
      this.sampleRate, this.channels := sampleRate, channels;
      wroteHeaders, sequence, granulePosition := false, 0, 0;
    }

    method Reset()
      modifies this
      ensures Model() == Fresh()
    {
      wroteHeaders := false;
      sequence := 0;
      granulePosition := 0;
    }

    /** The octets of a page, with the checksum patched in place; None is the exception. */
    method MakePage(packet: seq<byte>, granule: nat, headerType: byte) returns (octets: Option<seq<byte>>)
      requires granule < TWO_TO_THE_64
      modifies `sequence
      ensures |packet| > 255 ==> octets == None && Model() == old(Model())
      ensures |packet| <= 255 ==>
        && PacketPage(old(Model()), packet, granule, headerType).Valid()
        && octets == Some(Write(PacketPage(old(Model()), packet, granule, headerType)))
        && Model() == Counted(old(Model()))
    {
      if |packet| > 255 {
        return None;
      }
      var page := MakeFullPage(packet, granule, headerType);
      octets := Some(page);
    }

    method MakeFullPage(packet: seq<byte>, granule: nat, headerType: byte) returns (octets: seq<byte>)
      requires granule < TWO_TO_THE_64 && |packet| <= 255
      modifies `sequence
      ensures PacketPage(old(Model()), packet, granule, headerType).Valid()
      ensures octets == Write(PacketPage(old(Model()), packet, granule, headerType))
      ensures Model() == Counted(old(Model()))
    {
      hide Le, Crc, Sum, Write;
      var length: byte := |packet|;
      ghost var p := Page(headerType, granule, SERIAL, sequence, [length], packet);
      assert p == PacketPage(Model(), packet, granule, headerType);
      OneLacing(p);
      hide Page.Valid, PacketPage;
      var page: seq<byte> := CAPTURE + [0, headerType] + Le(granule, 8) + Le(SERIAL, 4) + Le(sequence, 4);
      assert page == Front(p) && Back(p) == [1] + [length] + packet;
      hide Front, Back;
      page := page + [0, 0, 0, 0] + ([1] + [length] + packet);
      octets := Sign(p, page);
      sequence := (sequence + 1) % TWO_TO_THE_32;
    }

    method MakeEmptyPage(granule: nat, headerType: byte) returns (octets: seq<byte>)
      requires granule < TWO_TO_THE_64
      modifies `sequence
      ensures EmptyPage(old(Model()), granule, headerType).Valid()
      ensures octets == Write(EmptyPage(old(Model()), granule, headerType))
      ensures Model() == Counted(old(Model()))
    {
      hide Le, Crc, Sum, Write;
      ghost var p := EmptyPage(Model(), granule, headerType);
      OneLacing(p);
      hide Page.Valid;
      var page: seq<byte> := CAPTURE + [0, headerType] + Le(granule, 8) + Le(SERIAL, 4) + Le(sequence, 4);
      assert page == Front(p) && [0] == Back(p);
      hide Front, Back;
      page := page + [0, 0, 0, 0] + [0];
      octets := Sign(p, page);
      sequence := (sequence + 1) % TWO_TO_THE_32;
    }

    /** Patches the four checksum octets of a page. */
    method Sign(ghost p: Page, page: seq<byte>) returns (signed: seq<byte>)
      requires p.Valid() && page == Unsigned(p)
      ensures signed == Write(p)
    {
      var crc := ComputeCrc(page);
      hide Crc;
      signed := page;
      var rest := crc;
      ghost var done: seq<byte> := [];
      for i := 0 to 4
        invariant |done| == i
        invariant |signed| == |page|
        invariant Le(crc, 4) == done + Le(rest, 4 - i)
        invariant signed == Front(p) + done + page[CRC_AT + i..]
      {
        signed := signed[CRC_AT + i := rest % 256];
        ghost var before := done;
        done := done + [rest % 256];
        rest := rest / 256;
        assert before + ([done[i]] + Le(rest, 3 - i)) == done + Le(rest, 3 - i);
      }
      assert done + [] == done;
      assert page[CRC_AT + 4..] == Back(p);
    }

    method WriteHeaders() returns (octets: seq<byte>)
      requires Model().Valid()
      modifies this
      ensures Model() == WithHeaders(old(Model()))
      ensures var pages := HeaderPages(sampleRate, channels, old(Model()));
        (forall i :: 0 <= i < |pages| ==> pages[i].Valid()) && octets == WriteAll(pages)
    {
      octets := [];
      if !wroteHeaders {
        ghost var m := Model();
        var head := MakePage(OpusHead(sampleRate, channels), 0, BOS);
        var tags := MakePage(OpusTags(), 0, 0);
        octets := head.value + tags.value;
        wroteHeaders := true;
        ghost var pages := HeaderPages(sampleRate, channels, m);
        WriteTwo(pages);
      }
    }

    method AdvanceGranule()
      modifies `granulePosition
      ensures Model() == Stepped(sampleRate, old(Model())) && Model().Valid()
    {
      granulePosition := (granulePosition + 960 * 48000 / sampleRate) % TWO_TO_THE_64;
    }

    method AppendPacket(payload: seq<byte>, isLast: bool) returns (octets: Option<seq<byte>>)
      requires Model().Valid()
      modifies this
      ensures var (next, output) := Do(sampleRate, channels, old(Model()), Append(payload, isLast));
        && Model() == next && next.Valid()
        && (output.Throws? ==> octets == None)
        && (output.Chunk? ==>
              && (forall i :: 0 <= i < |output.pages| ==> output.pages[i].Valid())
              && octets == Some(WriteAll(output.pages)))
    {
      if payload == [] {
        return None;
      }
      ghost var m := Model();
      PagesAreValid(sampleRate, channels, m, Append(payload, isLast));
      AppendMoves(sampleRate, channels, m, payload, isLast);
      assert Moved(sampleRate, m) == Stepped(sampleRate, WithHeaders(m));
      hide *;
      var out := WriteHeaders();
      AdvanceGranule();
      octets := AppendPage(out, HeaderPages(sampleRate, channels, m), payload, if isLast then EOS else 0);
    }

    method AppendPage(out: seq<byte>, ghost pages: seq<Page>, payload: seq<byte>, headerType: byte)
      returns (octets: Option<seq<byte>>)
      requires Model().Valid()
      requires (forall i :: 0 <= i < |pages| ==> pages[i].Valid()) && out == WriteAll(pages)
      modifies `sequence
      ensures |payload| > 255 ==> octets == None && Model() == old(Model())
      ensures |payload| <= 255 ==>
        var more := pages + [PacketPage(old(Model()), payload, granulePosition, headerType)];
        && (forall i :: 0 <= i < |more| ==> more[i].Valid())
        && octets == Some(WriteAll(more)) && Model() == Counted(old(Model()))
    {
      hide Write, WriteAll;
      ghost var m := Model();
      var page := MakePage(payload, granulePosition, headerType);
      if page.None? {
        return None;
      }
      OneMorePage(pages, PacketPage(m, payload, granulePosition, headerType));
      octets := Some(out + page.value);
    }

    method FinishStream() returns (octets: seq<byte>)
      requires Model().Valid()
      modifies this
      ensures var (next, output) := Do(sampleRate, channels, old(Model()), Finish);
        && Model() == next && next.Valid() && output.Chunk?
        && (forall i :: 0 <= i < |output.pages| ==> output.pages[i].Valid())
        && octets == WriteAll(output.pages)
    {
      ghost var m := Model();
      PagesAreValid(sampleRate, channels, m, Finish);
      var out := WriteHeaders();
      ghost var ready := Model();
      var page := MakeEmptyPage(granulePosition, EOS);
      hide Write, HeaderPages, WithHeaders;
      OneMorePage(HeaderPages(sampleRate, channels, m), EmptyPage(ready, m.granule, EOS));
      octets := out + page;
    }
  }

  lemma {:induction false} WriteTwo(pages: seq<Page>)
    requires |pages| == 2 && pages[0].Valid() && pages[1].Valid()
    ensures WriteAll(pages) == Write(pages[0]) + Write(pages[1])
  {
    hide Write;
    assert pages[1..][1..] == [];
    assert pages[1..] == [pages[1]];
    assert WriteAll(pages[1..]) == Write(pages[1]) + WriteAll(pages[1..][1..]);
    assert WriteAll(pages[1..][1..]) == [];
  }

  lemma {:induction false} OneMorePage(pages: seq<Page>, page: Page)
    requires page.Valid() && forall i :: 0 <= i < |pages| ==> pages[i].Valid()
    ensures forall i :: 0 <= i < |pages + [page]| ==> (pages + [page])[i].Valid()
    ensures WriteAll(pages + [page]) == WriteAll(pages) + Write(page)
  {
    hide Write, Page.Valid;
    assert forall i :: 0 <= i < |pages| ==> (pages + [page])[i] == pages[i];
    WriteAllConcat(pages, [page]);
    assert [page][1..] == [] && WriteAll([]) == [];
    assert WriteAll([page]) == Write(page) + [];
  }
}
