/** What a page reader recovers from a run of the muxer, and exactly when that is everything. */
module OggRoundTrip {
  import opened Optional
  import opened Bytes
  import opened OggPage
  import opened OggMuxer

  /** No call throws: packets have 1 to 255 octets. */
  predicate Takes(call: Call) {
    call.Append? ==> 0 < |call.payload| <= 255
  }

  ghost predicate AllTaken(calls: seq<Call>) {
    forall i :: 0 <= i < |calls| ==> Takes(calls[i])
  }

  /** The pages of all calls together; a call that throws returns none. */
  function Pages(rate: Rate, channels: byte, m: Muxer, calls: seq<Call>): seq<Page>
    decreases calls
  {
    if calls == [] then []
    else
      var (next, output) := Do(rate, channels, m, calls[0]);
      (if output.Chunk? then output.pages else []) + Pages(rate, channels, next, calls[1..])
  }

  function After(rate: Rate, channels: byte, m: Muxer, calls: seq<Call>): Muxer
    decreases calls
  {
    if calls == [] then m else After(rate, channels, Do(rate, channels, m, calls[0]).0, calls[1..])
  }

  lemma {:induction false} AllPagesAreValid(rate: Rate, channels: byte, m: Muxer, calls: seq<Call>)
    requires m.Valid()
    ensures forall i :: 0 <= i < |Pages(rate, channels, m, calls)| ==> Pages(rate, channels, m, calls)[i].Valid()
    decreases calls
  {
    if calls != [] {
      PagesAreValid(rate, channels, m, calls[0]);
      hide Do;
      AllPagesAreValid(rate, channels, Do(rate, channels, m, calls[0]).0, calls[1..]);
    }
  }

  /** The concatenated output of any run, throwing calls included, is read back page by page. */
  lemma {:induction false} OutputIsRead(rate: Rate, channels: byte, calls: seq<Call>)
    ensures var pages := Pages(rate, channels, Fresh(), calls);
      (forall i :: 0 <= i < |pages| ==> pages[i].Valid()) && ReadPages(WriteAll(pages)) == Some(pages)
  {
    AllPagesAreValid(rate, channels, Fresh(), calls);
    hide Pages, ReadPages, WriteAll;
    ReadOfWriteAll(Pages(rate, channels, Fresh(), calls));
  }

  // ---- numbering, marks and granule positions ----

  function Appends(calls: seq<Call>): nat {
    if calls == [] then 0 else (if calls[0].Append? then 1 else 0) + Appends(calls[1..])
  }

  predicate IsPageOf(p: Page, call: Call, sequence: nat, granule: nat) {
    && p.headerType == (if call.Finish? || call.isLast then EOS else 0)
    && p.serial == SERIAL
    && p.sequence == sequence % TWO_TO_THE_32
    && p.granule == granule % TWO_TO_THE_64
    && (if call.Append? then |call.payload| <= 255 && p.lacing == [|call.payload|] && p.body == call.payload
        else p.lacing == [] && p.body == [])
  }

  /** The page of one call once the headers are out. */
  lemma {:induction false} LaterPage(rate: Rate, channels: byte, m: Muxer, call: Call)
    requires m.wroteHeaders && m.Valid() && Takes(call)
    ensures var (next, output) := Do(rate, channels, m, call);
      && output.Chunk? && |output.pages| == 1
      && IsPageOf(output.pages[0], call, m.sequence, m.granule + (if call.Append? then GranuleStep(rate) else 0))
      && next == Muxer(true, (m.sequence + 1) % TWO_TO_THE_32,
                       (m.granule + if call.Append? then GranuleStep(rate) else 0) % TWO_TO_THE_64)
  {
    hide GranuleStep;
  }

  lemma {:induction false} ModAdd(a: nat, b: nat, m: nat)
    requires m > 0
    ensures (a % m + b) % m == (a + b) % m
  {
    var q := a / m;
    assert a + b == m * q + (a % m + b);
    var x := a % m + b;
    assert a + b == m * (q + x / m) + x % m by {
      assert m * (q + x / m) == m * q + m * (x / m);
    }
    UniqueRemainder(a + b, m, q + x / m, x % m);
  }

  ghost predicate PagesFollow(pages: seq<Page>, calls: seq<Call>, sequence: nat, granule: nat, step: nat) {
    && |pages| == |calls|
    && forall i :: 0 <= i < |calls| ==>
         IsPageOf(pages[i], calls[i], sequence + i, granule + Appends(calls[..i + 1]) * step)
  }

  lemma {:induction false} LaterPages(rate: Rate, channels: byte, m: Muxer, calls: seq<Call>, sequence: nat, granule: nat)
    requires m.wroteHeaders && m.Valid() && AllTaken(calls)
    requires m.sequence == sequence % TWO_TO_THE_32 && m.granule == granule % TWO_TO_THE_64
    ensures PagesFollow(Pages(rate, channels, m, calls), calls, sequence, granule, GranuleStep(rate))
    decreases calls
  {
    if calls != [] {
      var step, moved := GranuleStep(rate), if calls[0].Append? then GranuleStep(rate) else 0;
      var (next, output) := Do(rate, channels, m, calls[0]);
      NextPage(rate, channels, m, calls[0], sequence, granule);
      assert Pages(rate, channels, m, calls) == output.pages + Pages(rate, channels, next, calls[1..]);
      hide Do, GranuleStep, IsPageOf, PagesFollow, Pages;
      LaterPages(rate, channels, next, calls[1..], sequence + 1, granule + moved);
      assert output.pages == [output.pages[0]];
      JoinPages(output.pages[0], Pages(rate, channels, next, calls[1..]), calls, sequence, granule, step, m);
    }
  }

  lemma {:induction false} NextPage(rate: Rate, channels: byte, m: Muxer, call: Call, sequence: nat, granule: nat)
    requires m.wroteHeaders && m.Valid() && Takes(call)
    requires m.sequence == sequence % TWO_TO_THE_32 && m.granule == granule % TWO_TO_THE_64
    ensures var (next, output) := Do(rate, channels, m, call);
      var moved := if call.Append? then GranuleStep(rate) else 0;
      && output.Chunk? && |output.pages| == 1
      && IsPageOf(output.pages[0], call, m.sequence, m.granule + moved)
      && next.wroteHeaders && next.Valid()
      && next.sequence == (sequence + 1) % TWO_TO_THE_32 && next.granule == (granule + moved) % TWO_TO_THE_64
  {
    LaterPage(rate, channels, m, call);
    hide Do, GranuleStep, IsPageOf;
    ModAdd(sequence, 1, TWO_TO_THE_32);
    ModAdd(granule, if call.Append? then GranuleStep(rate) else 0, TWO_TO_THE_64);
  }

  lemma {:induction false} SamePage(p: Page, call: Call, m: Muxer, sequence: nat, granule: nat, moved: nat)
    requires m.sequence == sequence % TWO_TO_THE_32 && m.granule == granule % TWO_TO_THE_64
    requires IsPageOf(p, call, m.sequence, m.granule + moved)
    ensures IsPageOf(p, call, sequence, granule + moved)
  {
    ModAdd(sequence, 0, TWO_TO_THE_32);
    ModAdd(granule, moved, TWO_TO_THE_64);
  }

  lemma {:induction false} AppendsShift(calls: seq<Call>, i: nat, step: nat)
    requires i < |calls|
    ensures Appends(calls[..i + 1]) * step
         == (if calls[0].Append? then step else 0) + Appends(calls[1..][..i]) * step
  {
    assert calls[..i + 1][1..] == calls[1..][..i];
    var first, later := if calls[0].Append? then 1 else 0, Appends(calls[1..][..i]);
    assert Appends(calls[..i + 1]) == first + later;
    assert (first + later) * step == first * step + later * step;
  }

  lemma {:induction false} JoinPages(first: Page, pages: seq<Page>, calls: seq<Call>, sequence: nat, granule: nat,
                                     step: nat, m: Muxer)
    requires calls != [] && m.sequence == sequence % TWO_TO_THE_32 && m.granule == granule % TWO_TO_THE_64
    requires var moved := if calls[0].Append? then step else 0;
      && IsPageOf(first, calls[0], m.sequence, m.granule + moved)
      && PagesFollow(pages, calls[1..], sequence + 1, granule + moved, step)
    ensures PagesFollow([first] + pages, calls, sequence, granule, step)
  {
    var moved := if calls[0].Append? then step else 0;
    SamePage(first, calls[0], m, sequence, granule, moved);
    hide IsPageOf, Appends;
    forall i | 0 <= i < |calls|
      ensures IsPageOf(([first] + pages)[i], calls[i], sequence + i, granule + Appends(calls[..i + 1]) * step)
    {
      AppendsShift(calls, i, step);
      if i == 0 {
        NoAppends(calls[1..][..0], step);
      } else {
        assert IsPageOf(pages[i - 1], calls[1..][i - 1], sequence + 1 + (i - 1),
                        granule + moved + Appends(calls[1..][..i - 1 + 1]) * step);
      }
    }
  }

  lemma {:induction false} NoAppends(calls: seq<Call>, step: nat)
    requires calls == []
    ensures Appends(calls) * step == 0
  {
  }

  /** Pages are numbered from zero; the first is BOS, then the comment header, then one page for each call,
      EOS where the call ends the stream, at a granule position of one step for each packet so far. */
  lemma {:induction false} PagesInOrder(rate: Rate, channels: byte, calls: seq<Call>)
    requires calls != [] && AllTaken(calls)
    ensures var pages := Pages(rate, channels, Fresh(), calls);
      && |pages| == 2 + |calls|
      && pages[0] == Page(BOS, 0, SERIAL, 0, [19], OpusHead(rate, channels))
      && pages[1] == Page(0, 0, SERIAL, 1, [26], OpusTags())
      && PagesFollow(pages[2..], calls, 2, 0, GranuleStep(rate))
    ensures rate == 16000 ==> GranuleStep(rate) == 2880
  {
    var m := WithHeaders(Fresh());
    FirstCall(rate, channels, calls[0]);
    LaterPages(rate, channels, m, calls, 2, 0);
    HeadersAre(rate, channels);
    hide Do, PagesFollow, HeaderPages, OpusHead, OpusTags, GranuleStep;
    FirstPages(rate, channels, calls);
  }

  lemma {:induction false} HeadersAre(rate: Rate, channels: byte)
    ensures HeaderPages(rate, channels, Fresh())
         == [Page(BOS, 0, SERIAL, 0, [19], OpusHead(rate, channels)), Page(0, 0, SERIAL, 1, [26], OpusTags())]
    ensures rate == 16000 ==> GranuleStep(rate) == 2880
  {
  }

  lemma {:induction false} FirstPages(rate: Rate, channels: byte, calls: seq<Call>)
    requires calls != []
    requires var m := WithHeaders(Fresh());
      && Do(rate, channels, Fresh(), calls[0]).0 == Do(rate, channels, m, calls[0]).0
      && Do(rate, channels, Fresh(), calls[0]).1.Chunk? && Do(rate, channels, m, calls[0]).1.Chunk?
      && Do(rate, channels, Fresh(), calls[0]).1.pages
         == HeaderPages(rate, channels, Fresh()) + Do(rate, channels, m, calls[0]).1.pages
    ensures var headers, pages := HeaderPages(rate, channels, Fresh()), Pages(rate, channels, Fresh(), calls);
      && pages == headers + Pages(rate, channels, WithHeaders(Fresh()), calls)
      && pages[|headers|..] == Pages(rate, channels, WithHeaders(Fresh()), calls)
  {
    hide Do, HeaderPages;
  }

  lemma {:induction false} FirstCall(rate: Rate, channels: byte, call: Call)
    requires Takes(call)
    ensures var m := WithHeaders(Fresh());
      && Do(rate, channels, Fresh(), call).0 == Do(rate, channels, m, call).0
      && Do(rate, channels, Fresh(), call).1.Chunk? && Do(rate, channels, m, call).1.Chunk?
      && Do(rate, channels, Fresh(), call).1.pages
         == HeaderPages(rate, channels, Fresh()) + Do(rate, channels, m, call).1.pages
  {
    hide GranuleStep;
  }

  // ---- packets ----

  /** The packets of the calls whose length is not 255: a lone lacing value of 255 ends no packet. */
  function Recoverable(calls: seq<Call>): seq<seq<byte>> {
    if calls == [] then []
    else (if calls[0].Append? && |calls[0].payload| != 255 then [calls[0].payload] else []) + Recoverable(calls[1..])
  }

  function Payloads(calls: seq<Call>): seq<seq<byte>> {
    if calls == [] then [] else (if calls[0].Append? then [calls[0].payload] else []) + Payloads(calls[1..])
  }

  /** A fresh page with one lacing value. */
  lemma {:induction false} OnePacket(p: Page, open: Open)
    requires p.Valid() && !IsContinued(p) && p.lacing == [|p.body|]
    ensures Segments(p.lacing, p.body, Resumed(p, open)).0 == if |p.body| != 255 then [p.body] else []
  {
    assert p.lacing[1..] == [];
    assert p.body[..|p.body|] == p.body && p.body[|p.body|..] == [];
    assert Segments([], [], Nothing).0 == [];
    if |p.body| != 255 {
      assert Segments(p.lacing, p.body, Nothing).0 == [p.body] + Segments(p.lacing[1..], [], Nothing).0;
    }
  }

  lemma {:induction false} LaterPackets(pages: seq<Page>, calls: seq<Call>, open: Open)
    requires |pages| == |calls| && AllTaken(calls)
    requires forall i :: 0 <= i < |pages| ==> pages[i].Valid() && exists n, g :: IsPageOf(pages[i], calls[i], n, g)
    ensures Packets(pages, open) == Recoverable(calls)
    decreases pages
  {
    if pages != [] {
      var p := pages[0];
      assert p.Valid();
      var here := Segments(p.lacing, p.body, Resumed(p, open));
      if calls[0].Append? {
        OnePacket(p, open);
      }
      hide Segments, Resumed;
      LaterPackets(pages[1..], calls[1..], here.1);
    }
  }

  /** Reading the concatenated output gives the two headers and every packet not of 255 octets, in order. */
  lemma {:induction false} ReaderRecovers(rate: Rate, channels: byte, calls: seq<Call>)
    requires calls != [] && AllTaken(calls)
    ensures var pages := Pages(rate, channels, Fresh(), calls);
      && (forall i :: 0 <= i < |pages| ==> pages[i].Valid())
      && ReadPages(WriteAll(pages)) == Some(pages)
      && Packets(pages, Nothing) == [OpusHead(rate, channels), OpusTags()] + Recoverable(calls)
  {
    var pages := Pages(rate, channels, Fresh(), calls);
    OutputIsRead(rate, channels, calls);
    PagesInOrder(rate, channels, calls);
    hide Pages, ReadPages, WriteAll, OpusHead, OpusTags, Packets, PagesFollow;
    PagesCarry(pages, calls, GranuleStep(rate));
  }

  lemma {:induction false} PagesCarry(pages: seq<Page>, calls: seq<Call>, step: nat)
    requires AllTaken(calls) && |pages| == 2 + |calls|
    requires forall i :: 0 <= i < |pages| ==> pages[i].Valid()
    requires pages[0].headerType == BOS && pages[0].lacing == [|pages[0].body|] && |pages[0].body| < 255
    requires pages[1].headerType == 0 && pages[1].lacing == [|pages[1].body|] && |pages[1].body| < 255
    requires PagesFollow(pages[2..], calls, 2, 0, step)
    ensures Packets(pages, Nothing) == [pages[0].body, pages[1].body] + Recoverable(calls)
  {
    var later := pages[2..];
    HeadPackets(pages);
    hide Packets;
    forall i | 0 <= i < |later|
      ensures later[i].Valid() && exists n, g :: IsPageOf(later[i], calls[i], n, g)
    {
      assert later[i] == pages[i + 2];
      assert IsPageOf(later[i], calls[i], 2 + i, 0 + Appends(calls[..i + 1]) * step);
    }
    hide PagesFollow, Recoverable;
    LaterPackets(later, calls, TagsOpen(pages));
  }

  function TagsOpen(pages: seq<Page>): Open
    requires |pages| >= 2 && pages[0].Valid() && pages[1].Valid()
  {
    Segments(pages[1].lacing, pages[1].body,
             Resumed(pages[1], Segments(pages[0].lacing, pages[0].body, Resumed(pages[0], Nothing)).1)).1
  }

  lemma {:induction false} HeadPackets(pages: seq<Page>)
    requires |pages| >= 2 && forall i :: 0 <= i < |pages| ==> pages[i].Valid()
    requires forall i :: 0 <= i < 2 ==>
      !IsContinued(pages[i]) && pages[i].lacing == [|pages[i].body|] && |pages[i].body| < 255
    ensures forall i :: 0 <= i < |pages[2..]| ==> pages[2..][i].Valid()
    ensures Packets(pages, Nothing) == [pages[0].body, pages[1].body] + Packets(pages[2..], TagsOpen(pages))
  {
    assert pages[0].Valid() && pages[1].Valid();
    var afterHead := Segments(pages[0].lacing, pages[0].body, Resumed(pages[0], Nothing)).1;
    OnePacket(pages[0], Nothing);
    OnePacket(pages[1], afterHead);
    hide Segments, Resumed;
    assert pages[1..][1..] == pages[2..];
    assert Packets(pages, Nothing) == [pages[0].body] + Packets(pages[1..], afterHead);
    assert Packets(pages[1..], afterHead) == [pages[1].body] + Packets(pages[2..], TagsOpen(pages));
  }

  lemma {:induction false} RecoverableIsShorter(calls: seq<Call>)
    ensures |Recoverable(calls)| <= |Payloads(calls)|
    ensures (forall i :: 0 <= i < |calls| && calls[i].Append? ==> |calls[i].payload| != 255)
      <==> |Recoverable(calls)| == |Payloads(calls)|
    ensures |Recoverable(calls)| == |Payloads(calls)| ==> Recoverable(calls) == Payloads(calls)
    decreases calls
  {
    if calls != [] {
      RecoverableIsShorter(calls[1..]);
      assert forall i :: 0 <= i < |calls[1..]| ==> calls[1..][i] == calls[i + 1];
      assert forall i :: 0 < i < |calls| ==> calls[i] == calls[1..][i - 1];
    }
  }

  /** The stream carries exactly the packets it was given if and only if none of them has 255 octets. */
  lemma {:induction false} CarriesAllIff(rate: Rate, channels: byte, calls: seq<Call>)
    requires calls != [] && AllTaken(calls)
    ensures var pages := Pages(rate, channels, Fresh(), calls);
      && (forall i :: 0 <= i < |pages| ==> pages[i].Valid())
      && (Packets(pages, Nothing) == [OpusHead(rate, channels), OpusTags()] + Payloads(calls)
          <==> forall i :: 0 <= i < |calls| && calls[i].Append? ==> |calls[i].payload| != 255)
  {
    ReaderRecovers(rate, channels, calls);
    RecoverableIsShorter(calls);
    hide Pages, ReadPages, Packets, Recoverable, Payloads, OpusHead, OpusTags;
  }

  // ---- a throwing call can cost the headers ----

  /** The first call that is not an empty Append. */
  function FirstEffective(calls: seq<Call>): Option<Call>
    decreases calls
  {
    if calls == [] then None
    else if calls[0] != Append([], calls[0].Append? && calls[0].isLast) then Some(calls[0])
    else FirstEffective(calls[1..])
  }

  predicate IsOversized(call: Call) {
    call.Append? && |call.payload| > 255
  }

  lemma {:induction false} NoLaterHeaders(rate: Rate, channels: byte, m: Muxer, calls: seq<Call>)
    requires m.wroteHeaders
    ensures forall i :: 0 <= i < |Pages(rate, channels, m, calls)| ==>
      Pages(rate, channels, m, calls)[i].headerType != BOS
    decreases calls
  {
    if calls != [] {
      hide GranuleStep;
      assert Do(rate, channels, m, calls[0]).0.wroteHeaders;
      NoLaterHeaders(rate, channels, Do(rate, channels, m, calls[0]).0, calls[1..]);
    }
  }

  /** A run that returns any page starts with the BOS page unless its first effective call was too long
      for one lacing value; then no page of the stream is ever BOS. */
  lemma {:induction false} HeadersLostIff(rate: Rate, channels: byte, calls: seq<Call>)
    requires Pages(rate, channels, Fresh(), calls) != []
    ensures FirstEffective(calls).Some?
    ensures var pages := Pages(rate, channels, Fresh(), calls);
      && (pages[0].headerType == BOS <==> !IsOversized(FirstEffective(calls).value))
      && (IsOversized(FirstEffective(calls).value) ==>
            forall i :: 0 <= i < |pages| ==> pages[i].headerType != BOS)
    decreases calls
  {
    if calls[0].Append? && calls[0].payload == [] {
      assert calls[0] == Append([], calls[0].isLast);
      HeadersLostIff(rate, channels, calls[1..]);
    } else {
      hide GranuleStep;
      var (next, output) := Do(rate, channels, Fresh(), calls[0]);
      NoLaterHeaders(rate, channels, next, calls[1..]);
      if output.Chunk? {
        assert Pages(rate, channels, Fresh(), calls)[0] == output.pages[0];
      }
    }
  }
}
