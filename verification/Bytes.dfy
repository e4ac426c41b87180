/**
 Octets and little-endian integers, as every codec of the system reads and writes them.
 */
module Bytes {
  type byte = x: int | 0 <= x < 0x100
  type uint16 = x: int | 0 <= x < 0x1_0000
  type uint32 = x: int | 0 <= x < TWO_TO_THE_32

  const TWO_TO_THE_32: int := 0x1_0000_0000

  /** 256 to the power n: the number of values n octets can hold. */
  function Pow256(n: nat): (p: nat)
    ensures p > 0
  {
    if n == 0 then 1 else 256 * Pow256(n - 1)
  }

  lemma WidthOfWords()
    ensures Pow256(2) == 0x1_0000
    ensures Pow256(4) == TWO_TO_THE_32
    ensures Pow256(8) == 0x1_0000_0000_0000_0000
  {
    assert Pow256(1) == 256;
    assert Pow256(2) == 0x1_0000;
    assert Pow256(3) == 0x100_0000;
    assert Pow256(4) == TWO_TO_THE_32;
    assert Pow256(5) == 0x100_0000_0000;
    assert Pow256(6) == 0x1_0000_0000_0000;
    assert Pow256(7) == 0x100_0000_0000_0000;
  }

  /** The low n octets of a number, least significant octet first. */
  function Le(value: nat, n: nat): (octets: seq<byte>)
    ensures |octets| == n
  {
    if n == 0 then [] else [value % 256] + Le(value / 256, n - 1)
  }

  /** The number that octets spell, least significant octet first. */
  function ReadLe(octets: seq<byte>): (value: nat)
    ensures value < Pow256(|octets|)
  {
    if octets == [] then 0 else octets[0] + 256 * ReadLe(octets[1..])
  }

  function ReadLe16(octets: seq<byte>): (value: uint16)
    requires |octets| == 2
  {
    WidthOfWords();
    ReadLe(octets)
  }

  function ReadLe32(octets: seq<byte>): (value: uint32)
    requires |octets| == 4
  {
    WidthOfWords();
    ReadLe(octets)
  }

  /** Reading what was written gives the number back, modulo what n octets can hold. */
  lemma {:induction false} ReadOfLe(value: nat, n: nat)
    ensures ReadLe(Le(value, n)) == value % Pow256(n)
  {
    if n == 0 {
    } else {
      var p := Pow256(n - 1);
      ReadOfLe(value / 256, n - 1);
      assert Le(value, n)[1..] == Le(value / 256, n - 1);
      ModOfProduct(value, p);
    }
  }

  lemma ModOfProduct(value: nat, p: nat)
    requires p > 0
    ensures value % 256 + 256 * (value / 256 % p) == value % (256 * p)
  {
    var q := value / 256;
    var k, r := q / p, q % p;
    assert q == k * p + r;
    assert value == 256 * q + value % 256;
    assert value == (256 * p) * k + (256 * r + value % 256) by {
      assert 256 * (k * p) == (256 * p) * k;
    }
    UniqueRemainder(value, 256 * p, k, 256 * r + value % 256);
  }

  lemma UniqueRemainder(x: nat, m: nat, k: nat, r: nat)
    requires m > 0 && r < m && x == m * k + r
    ensures x % m == r && x / m == k
  {
    var d, e := x / m - k, x % m - r;
    assert m * d + e == 0 by {
      assert x == m * (x / m) + x % m;
      Distribute(m, x / m, k);
    }
    if d >= 1 {
      AtLeast(m, d);
    } else if d <= -1 {
      Distribute(m, 0, d);
      AtLeast(m, 0 - d);
    }
  }

  lemma Distribute(m: int, a: int, b: int)
    ensures m * (a - b) == m * a - m * b
  {
  }

  lemma AtLeast(m: nat, d: nat)
    requires d >= 1
    ensures m * d >= m
  {
  }

  /** Writing what was read gives the octets back: the little-endian form is canonical. */
  lemma {:induction false} LeOfRead(octets: seq<byte>)
    ensures Le(ReadLe(octets), |octets|) == octets
  {
    if octets == [] {
    } else {
      var rest := ReadLe(octets[1..]);
      LeOfRead(octets[1..]);
      assert ReadLe(octets) == octets[0] + 256 * rest;
      assert ReadLe(octets) % 256 == octets[0] && ReadLe(octets) / 256 == rest;
      assert octets == [octets[0]] + octets[1..];
    }
  }

  lemma ReadOfLe16(value: uint16)
    ensures ReadLe16(Le(value, 2)) == value
  {
    WidthOfWords();
    ReadOfLe(value, 2);
  }

  lemma ReadOfLe32(value: uint32)
    ensures ReadLe32(Le(value, 4)) == value
  {
    WidthOfWords();
    ReadOfLe(value, 4);
  }
}
