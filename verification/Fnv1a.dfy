/** The 8-bit FNV-1a variant that guards every snapshot payload. */
module Fnv1a {
  import opened Octets

  const FNV_OFFSET: Byte := 197

  /** One round: 32-bit arithmetic never overflows here, so `& 0xff` is the remainder by 256. */
  function Mix(hash: Byte, b: Byte): Byte {
    Xor(hash, b) * 147 % 256
  }

  function HashFrom(hash: Byte, data: seq<Byte>): Byte
    decreases |data|
  {
    if data == [] then hash else HashFrom(Mix(hash, data[0]), data[1..])
  }

  function Hash(data: seq<Byte>): Byte {
    HashFrom(FNV_OFFSET, data)
  }

  /** The checksum loop computes the fold. */
  method Fnv1a8(buffer: seq<Byte>) returns (hash: Byte)
    ensures hash == Hash(buffer)
  {
    hash := FNV_OFFSET;
    var index := 0;
    while index < |buffer|
      invariant 0 <= index <= |buffer|
      invariant HashFrom(hash, buffer[index..]) == Hash(buffer)
    {
      assert buffer[index..][1..] == buffer[index + 1..];
      hash := Mix(hash, buffer[index]);
      index := index + 1;
    }
  }

  /** 147 is a unit modulo 256: its inverse is 155. */
  lemma PrimeIsInvertible(x: Byte, y: Byte)
    requires x * 147 % 256 == y * 147 % 256
    ensures x == y
  {
    var p, q := x * 147 / 256, y * 147 / 256;
    assert x - y == 256 * (155 * (p - q) - 89 * (x - y));
  }

  /** A round is injective in the hash and in the byte. */
  lemma MixInjective(h1: Byte, h2: Byte, b1: Byte, b2: Byte)
    requires Mix(h1, b1) == Mix(h2, b2)
    ensures b1 == b2 ==> h1 == h2
    ensures h1 == h2 ==> b1 == b2
  {
    PrimeIsInvertible(Xor(h1, b1), Xor(h2, b2));
    XorCancel(h1, b1);
    XorCancel(h2, b2);
    XorCancel(b1, h1);
    XorCancel(b2, h2);
  }

  lemma {:induction false} HashFromInjective(h1: Byte, h2: Byte, data: seq<Byte>)
    requires h1 != h2
    ensures HashFrom(h1, data) != HashFrom(h2, data)
    decreases |data|
  {
    if data != [] {
      if Mix(h1, data[0]) == Mix(h2, data[0]) {
        MixInjective(h1, h2, data[0], data[0]);
      }
      HashFromInjective(Mix(h1, data[0]), Mix(h2, data[0]), data[1..]);
    }
  }

  lemma {:induction false} HashFromSingleByte(h: Byte, data: seq<Byte>, i: nat, b: Byte)
    requires i < |data| && b != data[i]
    ensures HashFrom(h, data[i := b]) != HashFrom(h, data)
    decreases |data|
  {
    var other := data[i := b];
    if i == 0 {
      if Mix(h, data[0]) == Mix(h, b) {
        MixInjective(h, h, data[0], b);
      }
      assert other[1..] == data[1..];
      HashFromInjective(Mix(h, b), Mix(h, data[0]), data[1..]);
    } else {
      assert other[1..] == data[1..][i - 1 := b];
      HashFromSingleByte(Mix(h, data[0]), data[1..], i - 1, b);
    }
  }

  /** Changing exactly one byte, wherever it is, always changes the checksum. */
  lemma DetectsSingleByteChange(data: seq<Byte>, i: nat, b: Byte)
    requires i < |data| && b != data[i]
    ensures Hash(data[i := b]) != Hash(data)
  {
    HashFromSingleByte(FNV_OFFSET, data, i, b);
  }
}
