/** Numbers and bytes as sequences of bits, least significant bit first. */
module BitStreams {
  import opened Octets

  function Bits(v: nat, n: nat): (r: seq<bool>)
    ensures |r| == n
  {
    if n == 0 then [] else [v % 2 == 1] + Bits(v / 2, n - 1)
  }

  function Number(bits: seq<bool>): (v: nat)
    ensures v < Pow2(|bits|)
  {
    if bits == [] then 0 else (if bits[0] then 1 else 0) + 2 * Number(bits[1..])
  }

  function Falses(n: nat): (r: seq<bool>)
    ensures |r| == n
  {
    seq(n, _ => false)
  }

  /** Writing a number that fits and reading the same bits gives it back. */
  lemma {:induction false} NumberOfBits(v: nat, n: nat)
    requires v < Pow2(n)
    ensures Number(Bits(v, n)) == v
  {
    if n > 0 {
      NumberOfBits(v / 2, n - 1);
      assert Bits(v, n)[1..] == Bits(v / 2, n - 1);
    }
  }

  lemma Remainder(x: nat, p: nat, q: nat, m: nat)
    requires m < p && x == p * q + m
    ensures x % p == m
    ensures x / p == q
  {
    var d := x / p - q;
    assert p * d == m - x % p;
  }

  lemma {:induction false} BitsOfNumber(bits: seq<bool>)
    ensures Bits(Number(bits), |bits|) == bits
  {
    if bits != [] {
      BitsOfNumber(bits[1..]);
      assert bits == [bits[0]] + bits[1..];
    }
  }

  lemma {:induction false} Pow2Adds(a: nat, b: nat)
    ensures Pow2(a + b) == Pow2(a) * Pow2(b)
  {
    if a > 0 {
      Pow2Adds(a - 1, b);
      assert 2 * (Pow2(a - 1) * Pow2(b)) == (2 * Pow2(a - 1)) * Pow2(b);
    }
  }

  function Shift(v: nat, n: nat): nat {
    if n == 0 then v else Shift(v / 2, n - 1)
  }

  lemma {:induction false} ShiftIsDivide(v: nat, n: nat)
    ensures Shift(v, n) == v / Pow2(n)
  {
    if n > 0 {
      ShiftIsDivide(v / 2, n - 1);
      HalfThenDivide(v, Pow2(n - 1));
    }
  }

  lemma {:induction false} BitsSplit(v: nat, a: nat, b: nat)
    ensures Bits(v, a + b) == Bits(v, a) + Bits(Shift(v, a), b)
  {
    if a > 0 {
      BitsSplit(v / 2, a - 1, b);
      var low, high := Bits(v / 2, a - 1), Bits(Shift(v, a), b);
      assert [v % 2 == 1] + (low + high) == ([v % 2 == 1] + low) + high;
    }
  }

  lemma HalfThenDivide(v: nat, p: nat)
    requires p >= 1
    ensures v / 2 / p == v / (2 * p)
  {
    var q, m := v / 2 / p, v / 2 % p;
    assert v == 2 * (p * q + m) + v % 2;
    assert 2 * (p * q) == (2 * p) * q;
    Remainder(v, 2 * p, q, 2 * m + v % 2);
  }

  /** The bit test of the write loop. */
  lemma {:induction false} BitsAt(v: nat, n: nat, k: nat)
    requires k < n
    ensures Bits(v, n)[k] == (v / Pow2(k) % 2 == 1)
  {
    BitsSplit(v, k, n - k);
    ShiftIsDivide(v, k);
  }

  /** The number of binary digits of n: the smallest w with n < 2^w, i.e. ceil(log2(n + 1)). */
  function Width(n: nat): (w: nat)
    ensures n < Pow2(w)
    ensures w > 0 ==> Pow2(w - 1) <= n
  {
    if n == 0 then 0 else 1 + Width(n / 2)
  }

  // ----- Bytes -----

  function BitOf(b: nat, k: nat): bool {
    if k == 0 then b % 2 == 1 else BitOf(b / 2, k - 1)
  }

  /** b | (1 << k) */
  function SetBit(b: nat, k: nat): (r: nat)
    ensures forall j: nat :: BitOf(r, j) == (j == k || BitOf(b, j))
    ensures forall n: nat :: k < n && b < Pow2(n) ==> r < Pow2(n)
  {
    if k == 0 then b - b % 2 + 1
    else
      var half := SetBit(b / 2, k - 1);
      var r := b % 2 + 2 * half;
      assert r / 2 == half && r % 2 == b % 2;
      assert forall j: nat :: j > 0 ==> BitOf(r, j) == BitOf(half, j - 1) && BitOf(b, j) == BitOf(b / 2, j - 1);
      assert forall n: nat :: n > 0 && b < Pow2(n) ==> b / 2 < Pow2(n - 1);
      r
  }

  lemma {:induction false} BitOfBits(b: nat, n: nat, k: nat)
    requires k < n
    ensures Bits(b, n)[k] == BitOf(b, k)
  {
    if k > 0 {
      BitOfBits(b / 2, n - 1, k - 1);
    }
  }

  function Unpack(bytes: seq<Byte>): (r: seq<bool>)
    ensures |r| == 8 * |bytes|
    decreases |bytes|
  {
    if bytes == [] then [] else Bits(bytes[0], 8) + Unpack(bytes[1..])
  }

  function Pack(bits: seq<bool>): (r: seq<Byte>)
    ensures |r| == |bits| / 8
    decreases |bits|
  {
    if |bits| < 8 then []
    else
      assert Pow2(8) == 256 by { assert Pow2(4) == 16; }
      [Number(bits[..8])] + Pack(bits[8..])
  }

  lemma {:induction false} PackUnpack(bytes: seq<Byte>)
    ensures Pack(Unpack(bytes)) == bytes
    decreases |bytes|
  {
    if bytes != [] {
      assert Pow2(8) == 256 by { assert Pow2(4) == 16; }
      PackUnpack(bytes[1..]);
      NumberOfBits(bytes[0], 8);
      assert Unpack(bytes)[..8] == Bits(bytes[0], 8);
      assert Unpack(bytes)[8..] == Unpack(bytes[1..]);
    }
  }

  lemma {:induction false} UnpackPack(bits: seq<bool>)
    requires |bits| % 8 == 0
    ensures Unpack(Pack(bits)) == bits
    decreases |bits|
  {
    if bits != [] {
      UnpackPack(bits[8..]);
      BitsOfNumber(bits[..8]);
      assert Pack(bits)[1..] == Pack(bits[8..]);
      assert bits == bits[..8] + bits[8..];
    }
  }

  lemma {:induction false} UnpackAppend(a: seq<Byte>, b: seq<Byte>)
    ensures Unpack(a + b) == Unpack(a) + Unpack(b)
    decreases |a|
  {
    if a == [] {
      assert a + b == b;
    } else {
      UnpackAppend(a[1..], b);
      assert (a + b)[1..] == a[1..] + b;
      assert Bits(a[0], 8) + (Unpack(a[1..]) + Unpack(b)) == (Bits(a[0], 8) + Unpack(a[1..])) + Unpack(b);
    }
  }

  lemma UnpackNext(bytes: seq<Byte>, j: nat)
    requires j < |bytes|
    ensures Unpack(bytes[..j + 1]) == Unpack(bytes[..j]) + Bits(bytes[j], 8)
  {
    assert bytes[..j + 1] == bytes[..j] + [bytes[j]];
    UnpackAppend(bytes[..j], [bytes[j]]);
    assert Unpack([bytes[j]]) == Bits(bytes[j], 8);
  }

  lemma {:induction false} UnpackAt(bytes: seq<Byte>, i: nat)
    requires i < 8 * |bytes|
    ensures Unpack(bytes)[i] == BitOf(bytes[i / 8], i % 8)
    decreases |bytes|
  {
    if i < 8 {
      BitOfBits(bytes[0], 8, i);
    } else {
      UnpackAt(bytes[1..], i - 8);
      assert Unpack(bytes)[i] == Unpack(bytes[1..])[i - 8];
    }
  }

  // ----- Positions -----

  /** Bits skipped by alignToByte. */
  function Padding(pos: nat): (n: nat)
    ensures n < 8 && (pos + n) % 8 == 0
  {
    (8 - pos % 8) % 8
  }

  function BytesFor(bits: nat): nat {
    (bits + 7) / 8
  }

  /** Aligning from bit k of byte o stops at the end of that byte, or stays when k is 0. */
  lemma AlignmentEndsByte(o: nat, k: nat)
    requires k < 8
    ensures Padding(8 * o + k) == if k == 0 then 0 else 8 - k
    ensures BytesFor(8 * o + k) == if k == 0 then o else o + 1
    ensures (8 * o + k) / 8 == o && (8 * o + k) % 8 == k
  {}

  /** out occupies bits from pos on. */
  predicate Holds(bits: seq<bool>, pos: nat, out: seq<bool>) {
    pos + |out| <= |bits| && bits[pos..pos + |out|] == out
  }

  lemma HoldsSplit(bits: seq<bool>, pos: nat, a: seq<bool>, b: seq<bool>)
    requires Holds(bits, pos, a + b)
    ensures Holds(bits, pos, a) && Holds(bits, pos + |a|, b)
  {
    var all := bits[pos..pos + |a + b|];
    assert bits[pos..pos + |a|] == all[..|a|] == a;
    assert bits[pos + |a|..pos + |a| + |b|] == all[|a|..] == b;
  }
}
