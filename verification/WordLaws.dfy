/**
 Facts about 32-bit words, one solver query each, free of any other definition.
 */
module WordLaws {
  lemma XorIsCommutative(a: bv32, b: bv32)
    ensures a ^ b == b ^ a
    ensures a ^ 0 == a
    ensures a ^ (a ^ b) == b
  {
  }

  lemma XorIsAssociative(a: bv32, b: bv32, c: bv32)
    ensures (a ^ b) ^ c == a ^ (b ^ c)
  {
  }

  lemma XorMoves(a: bv32, b: bv32, g: bv32)
    ensures (a ^ g) ^ (b ^ g) == a ^ b
    ensures (a ^ g) ^ b == (a ^ b) ^ g
    ensures a ^ (b ^ g) == (a ^ b) ^ g
  {
  }

  lemma TopBit(a: bv32)
    ensures a & 0x8000_0000 == 0 || a & 0x8000_0000 == 0x8000_0000
  {
  }

  lemma TopOctet(octet: bv32)
    requires octet <= 0xff
    ensures (octet << 24) >> 24 == octet
  {
  }

  lemma SplitTop(word: bv32, octet: bv32, index: bv32)
    requires index == ((word >> 24) & 0xff) ^ octet
    ensures word ^ (octet << 24) == (word & 0x00FF_FFFF) ^ (index << 24)
  {
  }

  lemma TopOctetXor(word: bv32, octet: bv32)
    requires octet <= 0xff
    ensures ((word >> 24) & 0xff) ^ octet <= 0xff
  {
  }

  lemma WideningIsInjective(a: bv8, b: bv8)
    requires a as bv32 == b as bv32
    ensures a == b
  {
  }

  /** The word with the given bits, most significant first. */
  function OfBits(b7: bool, b6: bool, b5: bool, b4: bool, b3: bool, b2: bool, b1: bool, b0: bool): bv8 {
    (if b7 then 0x80 else 0) | (if b6 then 0x40 else 0) | (if b5 then 0x20 else 0) | (if b4 then 0x10 else 0)
    | (if b3 then 8 else 0) | (if b2 then 4 else 0) | (if b1 then 2 else 0) | (if b0 then 1 else 0)
  }

  lemma {:induction false} BitsAreSeen(b7: bool, b6: bool, b5: bool, b4: bool, b3: bool, b2: bool, b1: bool, b0: bool)
    ensures var w := OfBits(b7, b6, b5, b4, b3, b2, b1, b0);
      && (w & 0x80 != 0 <==> b7) && (w & 0x40 != 0 <==> b6) && (w & 0x20 != 0 <==> b5) && (w & 0x10 != 0 <==> b4)
      && (w & 8 != 0 <==> b3) && (w & 4 != 0 <==> b2) && (w & 2 != 0 <==> b1) && (w & 1 != 0 <==> b0)
  {
  }

  lemma {:induction false} BitsAreUnique(
    a7: bool, a6: bool, a5: bool, a4: bool, a3: bool, a2: bool, a1: bool, a0: bool,
    b7: bool, b6: bool, b5: bool, b4: bool, b3: bool, b2: bool, b1: bool, b0: bool)
    requires OfBits(a7, a6, a5, a4, a3, a2, a1, a0) == OfBits(b7, b6, b5, b4, b3, b2, b1, b0)
    ensures a7 == b7 && a6 == b6 && a5 == b5 && a4 == b4 && a3 == b3 && a2 == b2 && a1 == b1 && a0 == b0
  {
    BitsAreSeen(a7, a6, a5, a4, a3, a2, a1, a0);
    BitsAreSeen(b7, b6, b5, b4, b3, b2, b1, b0);
    hide OfBits;
  }
}
