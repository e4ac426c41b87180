/**
 The table-driven page checksum, proved to be the remainder of polynomial division by x^32 + 0x04c11db7.
 */
module OggCrc {
  import WordLaws

  // The initial value is zero (section 6 of RFC 3533). Proofs hide the word operations they only need laws
  // about: the solver is slow on goals that mix words with sequences.

  /** Addition, and subtraction, of residues. */
  function Xor(a: bv32, b: bv32): bv32 {
    a ^ b
  }

  /** Multiplication of a residue by x, reduced by the generator. */
  function Shift(r: bv32): bv32 {
    if HasTop(r) then (r << 1) ^ 0x04c1_1db7 else r << 1
  }

  predicate HasTop(word: bv32) {
    word & 0x8000_0000 != 0
  }

  function TopIf(bit: bool): bv32 {
    if bit then 0x8000_0000 else 0
  }

  function LowIf(bit: bool): bv32 {
    if bit then 1 else 0
  }

  function Double(word: bv32): bv32 {
    word << 1
  }

  function Shifts(r: bv32, n: nat): bv32
    decreases n
  {
    if n == 0 then r else Shifts(Shift(r), n - 1)
  }

  /** The first n bits of a word, most significant first. */
  function TopBits(word: bv32, n: nat): (bits: seq<bool>)
    ensures |bits| == n
    decreases n
  {
    if n == 0 then [] else [HasTop(word)] + TopBits(Double(word), n - 1)
  }

  /** An octet aligned to the top of the 32-bit register. */
  function Aligned(b: bv8): bv32 {
    Word(b) << 24
  }

  function Word(b: bv8): bv32 {
    b as bv32
  }

  /** The message polynomial: the bits of all octets, each octet most significant bit first. */
  function BitsOf(data: seq<bv8>): seq<bool> {
    if data == [] then [] else TopBits(Aligned(data[0]), 8) + BitsOf(data[1..])
  }

  function Zeros(n: nat): seq<bool> {
    if n == 0 then [] else [false] + Zeros(n - 1)
  }

  /** One line of schoolbook long division: r * x plus the bit brought down, reduced. */
  function BringDown(r: bv32, bit: bool): bv32 {
    Xor(Shift(r), LowIf(bit))
  }

  function Divide(r: bv32, bits: seq<bool>): bv32
    decreases bits
  {
    if bits == [] then r else Divide(BringDown(r, bits[0]), bits[1..])
  }

  /** The remainder of message * x^32 divided by the generator. */
  function Remainder(data: seq<bv8>): bv32 {
    Divide(0, BitsOf(data) + Zeros(32))
  }

  // ---- laws of the word operations ----

  lemma ShiftIsLinear(a: bv32, b: bv32)
    ensures Shift(Xor(a, b)) == Xor(Shift(a), Shift(b))
  {
    WordLaws.TopBit(a);
    WordLaws.TopBit(b);
    WordLaws.XorMoves(a << 1, b << 1, 0x04c1_1db7);
  }

  lemma ShiftIsInjective(a: bv32, b: bv32)
    requires Shift(a) == Shift(b)
    ensures a == b
  {
    if HasTop(a) {
      if HasTop(b) {
      } else {
      }
    } else {
      if HasTop(b) {
      } else {
      }
    }
  }

  lemma XorIsAssociative(a: bv32, b: bv32, c: bv32)
    ensures Xor(Xor(a, b), c) == Xor(a, Xor(b, c))
  {
    WordLaws.XorIsAssociative(a, b, c);
  }

  lemma XorLaws(a: bv32, b: bv32)
    ensures Xor(a, b) == Xor(b, a) && Xor(a, 0) == a
    ensures Xor(a, Xor(a, b)) == b
  {
    WordLaws.XorIsCommutative(a, b);
  }

  /** Only the top bit of a word meets the register before the word moves on. */
  lemma TopBitMeetsRegister(word: bv32)
    ensures Shift(Xor(TopIf(HasTop(word)), word)) == Double(word)
  {
    if HasTop(word) {
      assert !HasTop(Xor(0x8000_0000, word));
    } else {
      XorLaws(word, 0);
      assert Xor(0, word) == word;
    }
  }

  lemma {:induction false} ShiftsAreLinear(a: bv32, b: bv32, n: nat)
    ensures Shifts(Xor(a, b), n) == Xor(Shifts(a, n), Shifts(b, n))
    decreases n
  {
    hide Shift, Xor;
    if n > 0 {
      ShiftIsLinear(a, b);
      ShiftsAreLinear(Shift(a), Shift(b), n - 1);
    }
  }

  lemma {:induction false} ShiftsAreInjective(a: bv32, b: bv32, n: nat)
    requires Shifts(a, n) == Shifts(b, n)
    ensures a == b
    decreases n
  {
    hide Shift;
    if n > 0 {
      ShiftsAreInjective(Shift(a), Shift(b), n - 1);
      ShiftIsInjective(a, b);
    }
  }

  lemma {:induction false} ShiftsCompose(r: bv32, m: nat, n: nat)
    ensures Shifts(r, m + n) == Shifts(Shifts(r, m), n)
    decreases m
  {
    hide Shift;
    if m > 0 {
      ShiftsCompose(Shift(r), m - 1, n);
    }
  }

  lemma LastShift(r: bv32, n: nat)
    ensures Shifts(Shift(r), n) == Shift(Shifts(r, n))
  {
    hide Shift;
    ShiftsCompose(r, n, 1);
    assert Shifts(Shifts(r, n), 1) == Shifts(Shift(Shifts(r, n)), 0);
  }

  lemma {:induction false} ZeroStaysZero(n: nat)
    ensures Shifts(0, n) == 0
  {
    if n > 0 {
      ZeroStaysZero(n - 1);
    }
  }

  lemma FourShifts(r: bv32)
    ensures Shifts(r, 4) == Shift(Shift(Shift(Shift(r))))
  {
    hide Shift;
    assert Shifts(r, 4) == Shifts(Shift(Shift(r)), 2);
  }

  lemma FourPlainShifts(r: bv32)
    requires r & 0xF000_0000 == 0
    ensures Shifts(r, 4) == r << 4
  {
    FourShifts(r);
  }

  /** A residue with eight free top bits is only moved by eight shifts. */
  lemma EightPlainShifts(r: bv32)
    requires r & 0xFF00_0000 == 0
    ensures Shifts(r, 8) == r << 8
  {
    hide Shift;
    FourPlainShifts(r);
    FourPlainShifts(r << 4);
    ShiftsCompose(r, 4, 4);
  }

  lemma OneAfter32Shifts()
    ensures Shifts(1, 32) == 0x04c1_1db7
  {
    EightPlainShifts(0x1);
    EightPlainShifts(0x100);
    EightPlainShifts(0x1_0000);
    FourPlainShifts(0x100_0000);
    FourShifts(0x1000_0000);
    ShiftsCompose(1, 8, 24);
    ShiftsCompose(0x100, 8, 16);
    ShiftsCompose(0x1_0000, 8, 8);
    ShiftsCompose(0x100_0000, 4, 4);
  }

  // ---- long division brings bits down at the bottom; the register meets them at the top ----

  /** The register form: each message bit meets the top of the register. */
  function Feed(r: bv32, bits: seq<bool>): bv32
    decreases bits
  {
    if bits == [] then r else Feed(Shift(Xor(r, TopIf(bits[0]))), bits[1..])
  }

  lemma {:induction false} DivideZeros(r: bv32, n: nat)
    ensures Divide(r, Zeros(n)) == Shifts(r, n)
    decreases n
  {
    hide Shift, Xor;
    if n > 0 {
      assert Zeros(n)[1..] == Zeros(n - 1);
      XorLaws(Shift(r), 0);
      DivideZeros(Shift(r), n - 1);
    }
  }

  lemma BitAfter32Shifts(bit: bool)
    ensures Shifts(LowIf(bit), 32) == Shift(TopIf(bit))
  {
    if bit {
      OneAfter32Shifts();
    } else {
      ZeroStaysZero(32);
    }
  }

  /** One line of division and one register step keep their registers 32 shifts apart. */
  lemma StepsAgree(r: bv32, bit: bool)
    ensures Shifts(BringDown(r, bit), 32) == Shift(Xor(Shifts(r, 32), TopIf(bit)))
  {
    hide Shift, Xor, TopIf, LowIf;
    ShiftsAreLinear(Shift(r), LowIf(bit), 32);
    BitAfter32Shifts(bit);
    LastShift(r, 32);
    ShiftIsLinear(Shifts(r, 32), TopIf(bit));
  }

  lemma {:induction false} DivisionIsFeed(r: bv32, bits: seq<bool>)
    ensures Divide(r, bits + Zeros(32)) == Feed(Shifts(r, 32), bits)
    decreases bits
  {
    hide Shift, BringDown, Xor, TopIf;
    if bits == [] {
      assert bits + Zeros(32) == Zeros(32);
      DivideZeros(r, 32);
    } else {
      assert (bits + Zeros(32))[1..] == bits[1..] + Zeros(32);
      DivisionIsFeed(BringDown(r, bits[0]), bits[1..]);
      StepsAgree(r, bits[0]);
    }
  }

  lemma {:induction false} FeedConcat(r: bv32, front: seq<bool>, back: seq<bool>)
    ensures Feed(r, front + back) == Feed(Feed(r, front), back)
    decreases front
  {
    hide Shift, Xor, TopIf;
    if front == [] {
      assert front + back == back;
    } else {
      assert (front + back)[1..] == front[1..] + back;
      FeedConcat(Shift(Xor(r, TopIf(front[0]))), front[1..], back);
    }
  }

  lemma {:induction false} FeedIsInjective(a: bv32, b: bv32, bits: seq<bool>)
    requires Feed(a, bits) == Feed(b, bits)
    ensures a == b
    decreases bits
  {
    hide Shift, Xor, TopIf;
    if bits != [] {
      var top := TopIf(bits[0]);
      FeedIsInjective(Shift(Xor(a, top)), Shift(Xor(b, top)), bits[1..]);
      ShiftIsInjective(Xor(a, top), Xor(b, top));
      XorLaws(a, top);
      XorLaws(b, top);
      XorLaws(top, a);
      XorLaws(top, b);
    }
  }

  // ---- a whole octet at once ----

  /** The bits of word below its first n are all zero. */
  predicate OnlyTop(word: bv32, n: nat)
    decreases n
  {
    if n == 0 then word == 0 else OnlyTop(Double(word), n - 1)
  }

  lemma {:induction false} FeedTopBits(r: bv32, word: bv32, n: nat)
    requires OnlyTop(word, n)
    ensures Feed(r, TopBits(word, n)) == Shifts(Xor(r, word), n)
    decreases n
  {
    hide Shift, Xor, TopIf, HasTop, Double;
    if n == 0 {
      XorLaws(r, 0);
    } else {
      var top := TopIf(HasTop(word));
      assert TopBits(word, n)[1..] == TopBits(Double(word), n - 1);
      FeedTopBits(Shift(Xor(r, top)), Double(word), n - 1);
      TopBitMeetsRegister(word);
      XorLaws(top, word);
      ShiftIsLinear(Xor(r, top), Xor(top, word));
      XorIsAssociative(r, top, Xor(top, word));
    }
  }

  lemma AlignedIsTop(b: bv8)
    ensures OnlyTop(Aligned(b), 8)
  {
    var w := Aligned(b);
    assert w << 1 << 1 << 1 << 1 << 1 << 1 << 1 << 1 == 0;
    assert OnlyTop(w << 1 << 1 << 1 << 1 << 1 << 1, 2);
    assert OnlyTop(w << 1 << 1 << 1 << 1, 4);
    assert OnlyTop(w << 1 << 1, 6);
  }

  /** Feeding an octet is eight shifts of the register with the octet added at its top. */
  lemma FeedOctet(r: bv32, b: bv8)
    ensures Feed(r, TopBits(Aligned(b), 8)) == Shifts(Xor(r, Aligned(b)), 8)
  {
    hide Aligned, Xor;
    AlignedIsTop(b);
    FeedTopBits(r, Aligned(b), 8);
  }

  /** The register after more octets. */
  function FeedOctets(r: bv32, data: seq<bv8>): bv32 {
    Feed(r, BitsOf(data))
  }

  lemma FeedOneMore(r: bv32, data: seq<bv8>, b: bv8)
    ensures FeedOctets(r, data + [b]) == Shifts(Xor(FeedOctets(r, data), Aligned(b)), 8)
  {
    hide Aligned, Xor, Shift;
    BitsConcat(data, [b]);
    assert [b][1..] == [];
    assert BitsOf([b]) == TopBits(Aligned(b), 8) + BitsOf([]);
    assert BitsOf([b]) == TopBits(Aligned(b), 8);
    FeedConcat(r, BitsOf(data), BitsOf([b]));
    FeedOctet(FeedOctets(r, data), b);
  }

  lemma {:induction false} BitsConcat(front: seq<bv8>, back: seq<bv8>)
    ensures BitsOf(front + back) == BitsOf(front) + BitsOf(back)
  {
    hide Aligned;
    if front == [] {
      assert front + back == back;
    } else {
      assert (front + back)[1..] == front[1..] + back;
      BitsConcat(front[1..], back);
    }
  }

  lemma RemainderIsFeed(data: seq<bv8>)
    ensures Remainder(data) == FeedOctets(0, data)
  {
    DivisionIsFeed(0, BitsOf(data));
    ZeroStaysZero(32);
  }

  /** Two messages that differ in exactly one octet never have the same checksum. */
  lemma OneCorruptOctetIsDetected(front: seq<bv8>, a: bv8, b: bv8, back: seq<bv8>)
    requires a != b
    ensures Remainder(front + [a] + back) != Remainder(front + [b] + back)
  {
    hide Shift, Xor, Aligned;
    var r := FeedOctets(0, front);
    RemainderIsFeed(front + [a] + back);
    RemainderIsFeed(front + [b] + back);
    FeedSplit(front, a, back);
    FeedSplit(front, b, back);
    if Remainder(front + [a] + back) == Remainder(front + [b] + back) {
      FeedIsInjective(Shifts(Xor(r, Aligned(a)), 8), Shifts(Xor(r, Aligned(b)), 8), BitsOf(back));
      ShiftsAreInjective(Xor(r, Aligned(a)), Xor(r, Aligned(b)), 8);
      XorLaws(r, Aligned(a));
      XorLaws(r, Aligned(b));
      AlignedIsInjective(a, b);
    }
  }

  lemma FeedSplit(front: seq<bv8>, b: bv8, back: seq<bv8>)
    ensures FeedOctets(0, front + [b] + back)
         == Feed(Shifts(Xor(FeedOctets(0, front), Aligned(b)), 8), BitsOf(back))
  {
    hide Shift, Xor, Aligned;
    BitsConcat(front + [b], back);
    FeedConcat(0, BitsOf(front + [b]), BitsOf(back));
    FeedOneMore(0, front, b);
  }

  lemma AlignedIsInjective(a: bv8, b: bv8)
    requires Aligned(a) == Aligned(b)
    ensures a == b
  {
    WordLaws.TopOctet(Word(a));
    WordLaws.TopOctet(Word(b));
    WordLaws.WideningIsInjective(a, b);
  }

  // ---- the table and the byte loop ----

  /** Where the byte loop looks: the register's top octet xor the incoming octet. */
  function TableIndex(crc: bv32, b: bv8): bv32 {
    ((crc >> 24) & 0xff) ^ Word(b)
  }

  lemma TableIndexIsOctet(crc: bv32, b: bv8)
    ensures TableIndex(crc, b) as int < 256
    ensures (TableIndex(crc, b) as int) as bv32 == TableIndex(crc, b)
  {
    hide Word;
    WordIsSmall(b);
    WordLaws.TopOctetXor(crc, Word(b));
    hide TableIndex;
  }

  lemma WordIsSmall(b: bv8)
    ensures Word(b) <= 0xff
  {
  }

  /** What the byte loop computes from the table: the effect of eight shifts on the top octet. */
  lemma TableStep(crc: bv32, b: bv8)
    ensures Shifts(Xor(crc, Aligned(b)), 8) == Xor(crc << 8, Shifts(TableIndex(crc, b) << 24, 8))
  {
    hide Shift, Xor, Word;
    MeetTopOctet(crc, Word(b), TableIndex(crc, b));
    hide TableIndex, Aligned;
    var low := crc & 0x00FF_FFFF;
    ShiftsAreLinear(low, TableIndex(crc, b) << 24, 8);
    EightPlainShifts(low);
  }

  lemma MeetTopOctet(crc: bv32, octet: bv32, index: bv32)
    requires index == ((crc >> 24) & 0xff) ^ octet
    ensures Xor(crc, octet << 24) == Xor(crc & 0x00FF_FFFF, index << 24)
  {
    WordLaws.SplitTop(crc, octet, index);
  }

  predicate IsTable(table: seq<bv32>) {
    && |table| == 256
    && forall i :: 0 <= i < 256 ==> table[i] == Shifts((i as bv32) << 24, 8)
  }

  method TableEntry(top: bv32) returns (r: bv32)
    ensures r == Shifts(top, 8)
  {
    r := top;
    for bit := 0 to 8
      invariant Shifts(r, 8 - bit) == Shifts(top, 8)
    {
      hide Shift;
      var before := r;
      r := if r & 0x8000_0000 != 0 then (r << 1) ^ 0x04c1_1db7 else r << 1;
      ConditionalShift(before, r);
    }
  }

  lemma ConditionalShift(r: bv32, next: bv32)
    requires next == if r & 0x8000_0000 != 0 then (r << 1) ^ 0x04c1_1db7 else r << 1
    ensures next == Shift(r)
  {
  }

  method BuildTable() returns (table: array<bv32>)
    ensures fresh(table) && IsTable(table[..])
  {
    table := new bv32[256];
    for i := 0 to 256
      invariant forall k :: 0 <= k < i ==> table[k] == Shifts((k as bv32) << 24, 8)
    {
      hide Shifts;
      var r := TableEntry((i as bv32) << 24);
      table[i] := r;
    }
  }

  /** One round of the byte loop feeds one octet. */
  lemma TableLookup(table: seq<bv32>, crc: bv32, b: bv8)
    requires IsTable(table)
    ensures TableIndex(crc, b) as int < 256
    ensures Xor(crc << 8, table[TableIndex(crc, b) as int]) == Shifts(Xor(crc, Aligned(b)), 8)
  {
    hide Shift, Shifts, Aligned, TableIndex, Xor;
    TableStep(crc, b);
    TableIndexIsOctet(crc, b);
  }

  method Checksum(data: seq<bv8>) returns (crc: bv32)
    ensures crc == Remainder(data)
  {
    var table := BuildTable();
    crc := 0;
    for i := 0 to |data|
      invariant IsTable(table[..])
      invariant crc == FeedOctets(0, data[..i])
    {
      hide Shift, Xor, Feed, Shifts, Aligned, TableIndex, FeedOctets, BitsOf, IsTable;
      assert data[..i + 1] == data[..i] + [data[i]];
      FeedOneMore(0, data[..i], data[i]);
      TableLookup(table[..], crc, data[i]);
      crc := Xor(crc << 8, table[TableIndex(crc, data[i]) as int]);
    }
    assert data[..|data|] == data;
    RemainderIsFeed(data);
  }
}
