/**
 Ogg pages and their reader, after section 6 of RFC 3533.
 */
module OggPage {
  import opened Optional
  import opened Bytes
  import OggCrc
  import WordLaws

  // A page is accepted only if its checksum is right; packets are put together from the segments of its
  // lacing table.

  const HEADER_SIZE: nat := 27
  const CRC_AT: nat := 22
  const CONTINUED: byte := 0x01
  const BOS: byte := 0x02
  const EOS: byte := 0x04

  datatype Page = Page(headerType: byte, granule: nat, serial: uint32, sequence: uint32,
                       lacing: seq<byte>, body: seq<byte>)
  {
    predicate Valid() {
      && granule < 0x1_0000_0000_0000_0000
      && |lacing| < 0x100
      && Sum(lacing) == |body|
    }
  }

  function Sum(lacing: seq<byte>): nat {
    if lacing == [] then 0 else lacing[0] + Sum(lacing[1..])
  }

  // ---- the checksum of octets ----

  predicate Odd(n: nat) {
    n % 2 == 1
  }

  /** An octet as the checksum's word type, bit by bit. */
  function ToWord8(b: byte): bv8 {
    var h1 := b / 2;
    var h2 := h1 / 2;
    var h3 := h2 / 2;
    var h4 := h3 / 2;
    var h5 := h4 / 2;
    var h6 := h5 / 2;
    WordLaws.OfBits(Odd(h6 / 2), Odd(h6), Odd(h5), Odd(h4), Odd(h3), Odd(h2), Odd(h1), Odd(b))
  }

  function Words8(data: seq<byte>): seq<bv8> {
    seq(|data|, i requires 0 <= i < |data| => ToWord8(data[i]))
  }

  function Crc(data: seq<byte>): uint32 {
    OggCrc.Remainder(Words8(data)) as int
  }

  method ComputeCrc(data: seq<byte>) returns (crc: uint32)
    ensures crc == Crc(data)
  {
    var words: seq<bv8> := Words8(data);
    var r := OggCrc.Checksum(words);
    crc := r as int;
  }

  // ---- writing ----

  const CAPTURE: seq<byte> := [0x4f, 0x67, 0x67, 0x53]

  function Front(p: Page): (octets: seq<byte>)
    ensures |octets| == CRC_AT
  {
    CAPTURE + [0, p.headerType] + Le(p.granule, 8) + Le(p.serial, 4) + Le(p.sequence, 4)
  }

  function Back(p: Page): seq<byte>
    requires p.Valid()
  {
    [|p.lacing|] + p.lacing + p.body
  }

  /** The page as its checksum sees it: with four zero octets for the checksum itself. */
  function Unsigned(p: Page): seq<byte>
    requires p.Valid()
  {
    Front(p) + [0, 0, 0, 0] + Back(p)
  }

  function Write(p: Page): seq<byte>
    requires p.Valid()
  {
    Front(p) + Le(Crc(Unsigned(p)), 4) + Back(p)
  }

  // ---- reading ----

  function ReadPage(data: seq<byte>): (r: Option<(Page, seq<byte>)>)
    ensures r.Some? ==> r.value.0.Valid() && |r.value.1| < |data|
  {
    if |data| < HEADER_SIZE || data[..4] != CAPTURE || data[4] != 0 then None
    else
      var segments := data[26];
      if |data| < HEADER_SIZE + segments then None
      else
        var lacing := data[27..27 + segments];
        var end := HEADER_SIZE + segments + Sum(lacing);
        if |data| < end || ReadLe32(data[22..26]) != Crc(data[..22] + [0, 0, 0, 0] + data[26..end]) then None
        else
          WidthOfWords();
          Some((Page(data[5], ReadLe(data[6..14]), ReadLe32(data[14..18]), ReadLe32(data[18..22]),
                     lacing, data[27 + segments..end]),
                data[end..]))
  }

  function ReadPages(data: seq<byte>): Option<seq<Page>>
    decreases |data|
  {
    if data == [] then Some([])
    else
      var first := ReadPage(data);
      if first.None? then None
      else
        var rest := ReadPages(first.value.1);
        if rest.None? then None else Some([first.value.0] + rest.value)
  }

  // ---- packets ----

  /** The packet the reader is in the middle of, if any; Skip when its start was lost. */
  datatype Open = Nothing | Partial(octets: seq<byte>) | Skip

  function Joined(open: Open, segment: seq<byte>): Open {
    match open
    case Nothing => Partial(segment)
    case Partial(octets) => Partial(octets + segment)
    case Skip => Skip
  }

  /** Cuts a page's body along its lacing table; a segment below 255 octets ends a packet. */
  function Segments(lacing: seq<byte>, body: seq<byte>, open: Open): (seq<seq<byte>>, Open)
    requires Sum(lacing) == |body|
    decreases lacing
  {
    if lacing == [] then ([], open)
    else
      var joined := Joined(open, body[..lacing[0]]);
      var rest := Segments(lacing[1..], body[lacing[0]..], if lacing[0] == 255 then joined else Nothing);
      (if lacing[0] < 255 && joined.Partial? then [joined.octets] + rest.0 else rest.0, rest.1)
  }

  predicate IsContinued(p: Page) {
    p.headerType % 2 == 1
  }

  /** A fresh page abandons an unfinished packet; a continued page needs one. */
  function Resumed(p: Page, open: Open): Open {
    if !IsContinued(p) then Nothing else if open.Nothing? then Skip else open
  }

  function Packets(pages: seq<Page>, open: Open): seq<seq<byte>>
    requires forall i :: 0 <= i < |pages| ==> pages[i].Valid()
    decreases pages
  {
    if pages == [] then []
    else
      assert pages[0].Valid();
      var here := Segments(pages[0].lacing, pages[0].body, Resumed(pages[0], open));
      here.0 + Packets(pages[1..], here.1)
  }

  // ---- reading undoes writing ----

  lemma {:induction false} FrontReads(p: Page, tail: seq<byte>)
    requires p.Valid()
    ensures var d := Front(p) + tail;
      && d[..22] == Front(p) && d[..4] == CAPTURE && d[4] == 0 && d[5] == p.headerType
      && ReadLe(d[6..14]) == p.granule && ReadLe32(d[14..18]) == p.serial && ReadLe32(d[18..22]) == p.sequence
  {
    WidthOfWords();
    ReadOfLe(p.granule, 8);
    ReadOfLe32(p.serial);
    ReadOfLe32(p.sequence);
    hide ReadLe, Le, Pow256, Sum;
    FrontSlices(CAPTURE + [0, p.headerType], Le(p.granule, 8), Le(p.serial, 4), Le(p.sequence, 4), tail);
    assert (CAPTURE + [0, p.headerType])[..4] == CAPTURE;
  }

  lemma {:induction false} FrontSlices(start: seq<byte>, a: seq<byte>, b: seq<byte>, c: seq<byte>, tail: seq<byte>)
    requires |start| == 6 && |a| == 8 && |b| == 4 && |c| == 4
    ensures var d := start + a + b + c + tail;
      && d[..22] == start + a + b + c && d[..4] == start[..4] && d[4] == start[4] && d[5] == start[5]
      && d[6..14] == a && d[14..18] == b && d[18..22] == c
  {
  }

  /** The reader takes a written page off the front of any stream, checksum and all. */
  lemma {:induction false} ReadOfWrite(p: Page, rest: seq<byte>)
    requires p.Valid()
    ensures ReadPage(Write(p) + rest) == Some((p, rest))
    ensures |Write(p)| == HEADER_SIZE + |p.lacing| + |p.body|
  {
    ReadOfSigned(p, Crc(Unsigned(p)), rest);
    hide ReadPage, Crc, Le, Front, Back, Unsigned, Sum;
  }

  /** A page whose checksum field holds some number is taken if it is the right one, else refused. */
  lemma {:induction false} ReadOfSigned(p: Page, field: uint32, rest: seq<byte>)
    requires p.Valid()
    ensures var written := Front(p) + Le(field, 4) + Back(p);
      && |written| == HEADER_SIZE + |p.lacing| + |p.body|
      && ReadPage(written + rest) == if field == Crc(Unsigned(p)) then Some((p, rest)) else None
  {
    var crc := Le(field, 4);
    var d, end := Front(p) + crc + Back(p) + rest, 27 + |p.lacing| + |p.body|;
    ReadOfLe32(field);
    Regrouped(Front(p), crc, Back(p), rest);
    FrontReads(p, crc + Back(p) + rest);
    hide Crc, Le, ReadLe, Front, Pow256, Unsigned, Sum, ReadPage;
    assert |Back(p)| == 1 + |p.lacing| + |p.body|;
    hide Back;
    Accepted(p, d, end);
  }

  lemma {:induction false} Regrouped(a: seq<byte>, b: seq<byte>, c: seq<byte>, d: seq<byte>)
    requires |a| == 22 && |b| == 4
    ensures a + b + c + d == a + (b + c + d) && a + b + c + d == (a + b) + c + d
    ensures (a + b + c + d)[22..26] == b
  {
  }

  /** The fields are where the reader looks for them; the checksum decides. */
  lemma {:induction false} Accepted(p: Page, d: seq<byte>, end: nat)
    requires p.Valid() && end == 27 + |p.lacing| + |p.body| <= |d|
    requires d[..4] == CAPTURE && d[4] == 0 && d[5] == p.headerType && ReadLe(d[6..14]) == p.granule
    requires ReadLe32(d[14..18]) == p.serial && ReadLe32(d[18..22]) == p.sequence
    requires d[26] == |p.lacing| && d[27..27 + |p.lacing|] == p.lacing && d[27 + |p.lacing|..end] == p.body
    ensures ReadPage(d) == if ReadLe32(d[22..26]) == Crc(d[..22] + [0, 0, 0, 0] + d[26..end])
                           then Some((p, d[end..])) else None
  {
    hide Crc, ReadLe, Sum, Pow256;
  }

  function WriteAll(pages: seq<Page>): seq<byte>
    requires forall i :: 0 <= i < |pages| ==> pages[i].Valid()
  {
    if pages == [] then [] else Write(pages[0]) + WriteAll(pages[1..])
  }

  lemma {:induction false} ReadOfWriteAll(pages: seq<Page>)
    requires forall i :: 0 <= i < |pages| ==> pages[i].Valid()
    ensures ReadPages(WriteAll(pages)) == Some(pages)
    decreases pages
  {
    if pages != [] {
      var rest := WriteAll(pages[1..]);
      ReadOfWrite(pages[0], rest);
      ReadOfWriteAll(pages[1..]);
      hide ReadPage, Write, Page.Valid;
      OnePageMore(pages[0], rest, pages[1..]);
      assert [pages[0]] + pages[1..] == pages;
    }
  }

  lemma {:induction false} OnePageMore(p: Page, rest: seq<byte>, pages: seq<Page>)
    requires p.Valid() && Write(p) != [] && ReadPage(Write(p) + rest) == Some((p, rest)) && ReadPages(rest) == Some(pages)
    ensures ReadPages(Write(p) + rest) == Some([p] + pages)
  {
    hide ReadPage, Write, Page.Valid;
    assert (Write(p) + rest)[0] == Write(p)[0];
  }

  lemma {:induction false} WriteAllConcat(a: seq<Page>, b: seq<Page>)
    requires forall i :: 0 <= i < |a| ==> a[i].Valid()
    requires forall i :: 0 <= i < |b| ==> b[i].Valid()
    ensures WriteAll(a + b) == WriteAll(a) + WriteAll(b)
    decreases a
  {
    hide Write;
    if a == [] {
      assert a + b == b;
    } else {
      WriteAllConcat(a[1..], b);
      assert (a + b)[1..] == a[1..] + b;
    }
  }

  // ---- corruption ----

  /** Two octets with the same parities all the way down are the same. */
  lemma {:induction false} SameParities(a: byte, b: byte)
    requires Odd(a) == Odd(b) && Odd(a / 2) == Odd(b / 2)
    requires Odd(a / 2 / 2) == Odd(b / 2 / 2) && Odd(a / 2 / 2 / 2) == Odd(b / 2 / 2 / 2)
    requires Odd(a / 2 / 2 / 2 / 2) == Odd(b / 2 / 2 / 2 / 2) && Odd(a / 2 / 2 / 2 / 2 / 2) == Odd(b / 2 / 2 / 2 / 2 / 2)
    requires Odd(a / 2 / 2 / 2 / 2 / 2 / 2) == Odd(b / 2 / 2 / 2 / 2 / 2 / 2)
    requires Odd(a / 2 / 2 / 2 / 2 / 2 / 2 / 2) == Odd(b / 2 / 2 / 2 / 2 / 2 / 2 / 2)
    ensures a == b
  {
    hide Odd;
    var a2, b2 := a / 2 / 2, b / 2 / 2;
    var a4, b4 := a2 / 2 / 2, b2 / 2 / 2;
    var a6, b6 := a4 / 2 / 2, b4 / 2 / 2;
    assert a2 < 64 && b2 < 64;
    assert a4 < 16 && b4 < 16;
    assert a6 / 2 / 2 == b6 / 2 / 2 == 0;
    SameQuarter(a6, b6);
    SameQuarter(a4, b4);
    SameQuarter(a2, b2);
    SameQuarter(a, b);
  }

  lemma {:induction false} SameQuarter(a: nat, b: nat)
    requires a / 2 / 2 == b / 2 / 2 && Odd(a) == Odd(b) && Odd(a / 2) == Odd(b / 2)
    ensures a == b
  {
    assert a == 2 * (a / 2) + a % 2 && b == 2 * (b / 2) + b % 2;
  }

  lemma {:induction false} WordsDiffer(a: byte, b: byte)
    requires a != b
    ensures ToWord8(a) != ToWord8(b)
  {
    hide Odd, WordLaws.OfBits;
    if ToWord8(a) == ToWord8(b) {
      WordLaws.BitsAreUnique(
        Odd(a / 2 / 2 / 2 / 2 / 2 / 2 / 2), Odd(a / 2 / 2 / 2 / 2 / 2 / 2), Odd(a / 2 / 2 / 2 / 2 / 2),
        Odd(a / 2 / 2 / 2 / 2), Odd(a / 2 / 2 / 2), Odd(a / 2 / 2), Odd(a / 2), Odd(a),
        Odd(b / 2 / 2 / 2 / 2 / 2 / 2 / 2), Odd(b / 2 / 2 / 2 / 2 / 2 / 2), Odd(b / 2 / 2 / 2 / 2 / 2),
        Odd(b / 2 / 2 / 2 / 2), Odd(b / 2 / 2 / 2), Odd(b / 2 / 2), Odd(b / 2), Odd(b));
      SameParities(a, b);
    }
  }

  lemma {:induction false} RemaindersDiffer(x: seq<bv8>, y: seq<bv8>)
    requires OggCrc.Remainder(x) != OggCrc.Remainder(y)
    ensures OggCrc.Remainder(x) as int != OggCrc.Remainder(y) as int
  {
    var r, s := OggCrc.Remainder(x), OggCrc.Remainder(y);
    assert (r as int) as bv32 == r && (s as int) as bv32 == s;
  }

  lemma {:induction false} CorruptOctetShows(front: seq<byte>, a: byte, b: byte, back: seq<byte>)
    requires a != b
    ensures Crc(front + [a] + back) != Crc(front + [b] + back)
  {
    WordsDiffer(a, b);
    hide ToWord8;
    assert Words8(front + [a] + back) == Words8(front) + [ToWord8(a)] + Words8(back);
    assert Words8(front + [b] + back) == Words8(front) + [ToWord8(b)] + Words8(back);
    OggCrc.OneCorruptOctetIsDetected(Words8(front), ToWord8(a), ToWord8(b), Words8(back));
    hide Words8;
    RemaindersDiffer(Words8(front) + [ToWord8(a)] + Words8(back), Words8(front) + [ToWord8(b)] + Words8(back));
  }

  /** A reader refuses a page of which one octet of packet data was changed. */
  lemma {:induction false} CorruptPageIsRefused(p: Page, i: nat, octet: byte, rest: seq<byte>)
    requires p.Valid() && i < |p.body| && octet != p.body[i]
    ensures |Write(p)| == HEADER_SIZE + |p.lacing| + |p.body|
    ensures ReadPage(Write(p)[HEADER_SIZE + |p.lacing| + i := octet] + rest).None?
  {
    hide ReadPage, Sum, Crc, Le, Front, Back, Unsigned, Write;
    CorruptCrc(p, Page(p.headerType, p.granule, p.serial, p.sequence, p.lacing, p.body[i := octet]), i, octet, rest);
  }

  lemma {:induction false} CorruptCrc(p: Page, q: Page, i: nat, octet: byte, rest: seq<byte>)
    requires p.Valid() && q.Valid() && i < |p.body| && octet != p.body[i] && q == p.(body := p.body[i := octet])
    ensures |Write(p)| == HEADER_SIZE + |p.lacing| + |p.body|
    ensures ReadPage(Write(p)[HEADER_SIZE + |p.lacing| + i := octet] + rest).None?
  {
    hide ReadPage, Sum, Crc, Le, Front, Back, Unsigned, Write, Page.Valid;
    var at, u := HEADER_SIZE + |p.lacing| + i, Unsigned(p);
    ChangedOctet(p, q, i, octet);
    CorruptOctetShows(u[..at], p.body[i], octet, u[at + 1..]);
    ReadOfSigned(q, Crc(u), rest);
  }

  lemma {:induction false} ChangedOctet(p: Page, q: Page, i: nat, octet: byte)
    requires p.Valid() && q.Valid() && i < |p.body| && q == p.(body := p.body[i := octet])
    ensures var at := HEADER_SIZE + |p.lacing| + i; var u := Unsigned(p);
      && |u| == |Write(p)| == HEADER_SIZE + |p.lacing| + |p.body|
      && u == u[..at] + [p.body[i]] + u[at + 1..] && Unsigned(q) == u[..at] + [octet] + u[at + 1..]
      && Write(p)[at := octet] == Front(q) + Le(Crc(u), 4) + Back(q)
  {
    hide Sum, Crc, Le, Front;
    assert Front(q) == Front(p) by { FrontIgnoresBody(p, q); }
    var at := |p.lacing| + 1 + i;
    assert Back(q) == Back(p)[at := octet];
    hide Back;
    assert Back(p)[at] == p.body[i] by { BackHas(p, i); }
  }

  lemma {:induction false} BackHas(p: Page, i: nat)
    requires p.Valid() && i < |p.body|
    ensures Back(p)[|p.lacing| + 1 + i] == p.body[i]
  {
    hide Sum;
  }

  lemma {:induction false} FrontIgnoresBody(p: Page, q: Page)
    requires p.(body := []) == q.(body := [])
    ensures Front(p) == Front(q)
  {
  }

}
