/** Bytes as bounded integers, with the bitwise operations the wire code uses. */
module Octets {
  type Byte = x: int | 0 <= x < 256

  function Pow2(n: nat): (r: nat)
    ensures r >= 1
  {
    if n == 0 then 1 else 2 * Pow2(n - 1)
  }

  /** The low n bits of a ^ b. */
  function XorBits(a: nat, b: nat, n: nat): (r: nat)
    ensures r < Pow2(n)
  {
    if n == 0 then 0 else (a + b) % 2 + 2 * XorBits(a / 2, b / 2, n - 1)
  }

  function Xor(a: Byte, b: Byte): Byte {
    assert Pow2(8) == 256 by { assert Pow2(4) == 16; }
    XorBits(a, b, 8)
  }

  lemma {:induction false} XorBitsCancel(a: nat, b: nat, n: nat)
    requires a < Pow2(n)
    ensures XorBits(XorBits(a, b, n), b, n) == a
  {
    if n > 0 {
      XorBitsCancel(a / 2, b / 2, n - 1);
      ParityCancel(a, b, XorBits(a / 2, b / 2, n - 1));
    }
  }

  lemma ParityCancel(a: nat, b: nat, high: nat)
    ensures var r := (a + b) % 2 + 2 * high;
            r / 2 == high && (r + b) % 2 == a % 2
  {}

  lemma {:induction false} XorBitsComm(a: nat, b: nat, n: nat)
    ensures XorBits(a, b, n) == XorBits(b, a, n)
  {
    if n > 0 {
      XorBitsComm(a / 2, b / 2, n - 1);
    }
  }

  /** XOR with the same byte twice is the identity, from either side. */
  lemma XorCancel(a: Byte, b: Byte)
    ensures Xor(Xor(a, b), b) == a
    ensures Xor(a, b) == Xor(b, a)
  {
    assert Pow2(8) == 256 by { assert Pow2(4) == 16; }
    XorBitsCancel(a, b, 8);
    XorBitsComm(a, b, 8);
  }
}

module Options {
  datatype Option<+T> = None | Some(value: T)
}
