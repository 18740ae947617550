/** Fixed-width integers as bytes: little-endian in headers, big-endian in nonces. */
module Endian {
  import opened Common

  type Bytes = seq<u8>

  function Pow256(n: nat): (r: nat)
    ensures r > 0
  {
    if n == 0 then 1 else 256 * Pow256(n - 1)
  }

  lemma WordSizes()
    ensures Pow256(4) == U32 && Pow256(8) == U64
  {
    assert Pow256(4) == 256 * 256 * 256 * 256 * Pow256(0);
    assert Pow256(8) == 256 * 256 * 256 * 256 * Pow256(4);
  }

  function Le(x: nat, n: nat): (r: Bytes)
    ensures |r| == n
  {
    if n == 0 then [] else [x % 256] + Le(x / 256, n - 1)
  }

  function FromLe(b: Bytes): (r: nat)
    ensures r < Pow256(|b|)
  {
    if b == [] then 0 else b[0] + 256 * FromLe(b[1..])
  }

  function Be(x: nat, n: nat): (r: Bytes)
    ensures |r| == n
  {
    if n == 0 then [] else Be(x / 256, n - 1) + [x % 256]
  }

  function FromBe(b: Bytes): (r: nat)
    ensures r < Pow256(|b|)
  {
    if b == [] then 0 else FromBe(b[..|b| - 1]) * 256 + b[|b| - 1]
  }

  lemma {:induction false} LeRoundTrip(x: nat, n: nat)
    requires x < Pow256(n)
    ensures FromLe(Le(x, n)) == x
  {
    if n > 0 {
      LeRoundTrip(x / 256, n - 1);
      assert Le(x, n)[1..] == Le(x / 256, n - 1);
    }
  }

  lemma {:induction false} FromLeRoundTrip(b: Bytes)
    ensures Le(FromLe(b), |b|) == b
  {
    if b != [] {
      FromLeRoundTrip(b[1..]);
      Digit(b[0], FromLe(b[1..]));
    }
  }

  lemma Digit(low: u8, high: nat)
    ensures (low + 256 * high) % 256 == low && (low + 256 * high) / 256 == high
  {
  }

  lemma {:induction false} BeRoundTrip(x: nat, n: nat)
    requires x < Pow256(n)
    ensures FromBe(Be(x, n)) == x
  {
    if n > 0 {
      BeRoundTrip(x / 256, n - 1);
      assert Be(x, n)[..n - 1] == Be(x / 256, n - 1);
    }
  }

  /** What four digits are worth, the first one least. */
  function Word(a: nat, b: nat, c: nat, d: nat): nat {
    a + 0x100 * b + 0x1_0000 * c + 0x100_0000 * d
  }

  /** Little-endian bytes begin with the least digit, big-endian ones with the greatest. */
  lemma Worths(b: Bytes)
    ensures |b| == 4 ==> FromLe(b) == Word(b[0], b[1], b[2], b[3])
    ensures |b| == 4 ==> FromBe(b) == Word(b[3], b[2], b[1], b[0])
  {
    if |b| == 4 {
      assert b[1..][1..] == b[2..] && b[2..][1..] == b[3..] && b[3..][1..] == [];
      assert FromLe(b[3..]) == b[3];
      assert FromLe(b[2..]) == b[2] + 0x100 * FromLe(b[3..]);
      assert FromLe(b[1..]) == b[1] + 0x100 * FromLe(b[2..]);
      assert b[..3][..2] == b[..2] && b[..2][..1] == b[..1] && b[..1][..0] == [];
      assert FromBe(b[..1]) == b[0];
      assert FromBe(b[..2]) == FromBe(b[..1]) * 0x100 + b[1];
      assert FromBe(b[..3]) == FromBe(b[..2]) * 0x100 + b[2];
    }
  }

  function U32FromLe(b: Bytes): u32
    requires |b| == 4
  {
    WordSizes();
    FromLe(b)
  }

  function U32FromBe(b: Bytes): u32
    requires |b| == 4
  {
    WordSizes();
    FromBe(b)
  }

  lemma U32RoundTrips(x: u32, b: Bytes)
    requires |b| == 4
    ensures U32FromLe(Le(x, 4)) == x && Le(U32FromLe(b), 4) == b && U32FromBe(Be(x, 4)) == x
  {
    WordSizes();
    LeRoundTrip(x, 4);
    FromLeRoundTrip(b);
    BeRoundTrip(x, 4);
  }
}
