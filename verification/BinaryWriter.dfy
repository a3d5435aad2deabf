/** The growing bit-and-byte buffer: src/protocol/binary/BinaryWriter.js. */
module BinaryWriters {
  import opened Octets
  import opened BitStreams

  const MAX_SAFE := 0x1F_FFFF_FFFF_FFFF

  /**
   * The first bits of buf are stream, and the rest of a partly filled byte is zero; nothing is said
   * of the bytes whose indices are in torn.
   */
  predicate StoresBut(buf: seq<Byte>, stream: seq<bool>, torn: set<nat>) {
    && BytesFor(|stream|) <= |buf|
    && (forall i :: 0 <= i < |stream| && i / 8 !in torn ==> BitOf(buf[i / 8], i % 8) == stream[i])
    && (|stream| / 8 !in torn ==> forall k :: 0 < |stream| % 8 <= k < 8 ==> !BitOf(buf[|stream| / 8], k))
  }

  predicate Stores(buf: seq<Byte>, stream: seq<bool>) {
    StoresBut(buf, stream, {})
  }

  /** What writeBits accepts. A 32-bit field takes any safe integer and keeps its low bits. */
  predicate Fits(value: int, count: int) {
    0 <= count <= 32 && 0 <= value <= MAX_SAFE && (count < 32 ==> value < Pow2(count))
  }

  /** The byte that holds bit n after the write loop has set it to b. */
  function WithBit(byte: Byte, n: nat, b: bool): nat {
    var cleared := if n % 8 == 0 then 0 else byte;
    if b then SetBit(cleared, n % 8) else cleared
  }

  lemma StoresBit(before: seq<Byte>, after: seq<Byte>, stream: seq<bool>, torn: set<nat>, b: bool)
    requires StoresBut(before, stream, torn) && |after| == |before| && |stream| / 8 < |before|
    requires forall j :: 0 <= j < |before| && j != |stream| / 8 ==> after[j] == before[j]
    requires after[|stream| / 8] == WithBit(before[|stream| / 8], |stream|, b)
    ensures StoresBut(after, stream + [b], torn)
  {
    hide BitOf, SetBit;
    var n := |stream|;
    ZeroHasNoBits();
    forall i | 0 <= i < n + 1 && i / 8 !in torn
      ensures BitOf(after[i / 8], i % 8) == (stream + [b])[i]
    {
      if i < n && i / 8 == n / 8 {
        assert i % 8 < n % 8;
      } else if i < n {
        assert after[i / 8] == before[i / 8];
      }
    }
    if n % 8 < 7 {
      assert (n + 1) / 8 == n / 8 && (n + 1) % 8 == n % 8 + 1;
    } else {
      assert (n + 1) % 8 == 0;
    }
  }

  lemma ZeroHasNoBits()
    ensures forall k: nat :: !BitOf(0, k)
  {
    forall k: nat
      ensures !BitOf(0, k)
    {
      ZeroBit(k);
    }
  }

  lemma {:induction false} ZeroBit(k: nat)
    ensures !BitOf(0, k)
  {
    if k > 0 {
      ZeroBit(k - 1);
    }
  }

  lemma StoresAligned(buf: seq<Byte>, stream: seq<bool>, torn: set<nat>)
    requires StoresBut(buf, stream, torn)
    ensures StoresBut(buf, stream + Falses(Padding(|stream|)), torn)
  {
    hide BitOf, Padding, BytesFor;
    var n := |stream|;
    AlignmentEndsByte(n / 8, n % 8);
    AlignmentEndsByte((n + Padding(n)) / 8, 0);
    forall i | 0 <= i < n + Padding(n) && i / 8 !in torn
      ensures BitOf(buf[i / 8], i % 8) == (stream + Falses(Padding(n)))[i]
    {
      if i >= n {
        AlignmentEndsByte(n / 8, i - n / 8 * 8);
      }
    }
  }

  /** Outside the torn bytes, unpacking the buffer's used part gives the stream and zero padding. */
  lemma StoresUnpacks(buf: seq<Byte>, stream: seq<bool>, torn: set<nat>)
    requires StoresBut(buf, stream, torn)
    ensures AgreeBut(Unpack(buf[..BytesFor(|stream|)]), stream + Falses(Padding(|stream|)), torn)
  {
    hide BitOf, Unpack;
    var n := BytesFor(|stream|);
    var all := stream + Falses(Padding(|stream|));
    forall i | 0 <= i < 8 * n && i / 8 !in torn
      ensures Unpack(buf[..n])[i] == all[i]
    {
      UnpackAt(buf[..n], i);
      assert buf[..n][i / 8] == buf[i / 8];
      if i >= |stream| {
        assert i / 8 == |stream| / 8 && |stream| % 8 <= i % 8;
      }
    }
  }

  predicate AgreeBut(bits: seq<bool>, expected: seq<bool>, torn: set<nat>) {
    |bits| == |expected| && forall i :: 0 <= i < |bits| && i / 8 !in torn ==> bits[i] == expected[i]
  }

  // ----- Growing -----

  /** Doubling reaches any size from any capacity but 0. */
  lemma DoublingReachesIff(capacity: nat, required: nat)
    ensures (exists k: nat :: capacity * Pow2(k) >= required) <==> capacity >= 1 || required == 0
  {
    if capacity >= 1 {
      PowerExceeds(required);
      assert capacity * Pow2(required) >= Pow2(required);
    } else {
      assert capacity * Pow2(0) == 0;
    }
  }

  lemma {:induction false} PowerExceeds(n: nat)
    ensures Pow2(n) >= n
  {
    if n > 0 {
      PowerExceeds(n - 1);
    }
  }

  /** The write loop of writeBits on a buffer, from bit pos on. */
  function PutBits(buf: seq<Byte>, pos: nat, bits: seq<bool>): (r: seq<Byte>)
    requires pos + |bits| <= 8 * |buf|
    ensures |r| == |buf|
    decreases |bits|
  {
    if bits == [] then buf
    else
      var byte := WithBit(buf[pos / 8], pos, bits[0]);
      assert byte < 256 by { WithBitIsByte(buf[pos / 8], pos, bits[0]); }
      PutBits(buf[pos / 8 := byte], pos + 1, bits[1..])
  }

  lemma PutBitsStep(buf: seq<Byte>, pos: nat, bits: seq<bool>)
    requires bits != [] && pos + |bits| <= 8 * |buf|
    ensures 0 <= WithBit(buf[pos / 8], pos, bits[0]) < 256
    ensures PutBits(buf, pos, bits) == PutBits(buf[pos / 8 := WithBit(buf[pos / 8], pos, bits[0])], pos + 1, bits[1..])
  {
    hide WithBit;
    WithBitIsByte(buf[pos / 8], pos, bits[0]);
  }

  lemma {:induction false} PutBitsSplit(buf: seq<Byte>, pos: nat, a: seq<bool>, b: seq<bool>)
    requires pos + |a| + |b| <= 8 * |buf|
    ensures PutBits(buf, pos, a + b) == PutBits(PutBits(buf, pos, a), pos + |a|, b)
    decreases |a|
  {
    hide WithBit;
    if a == [] {
      assert a + b == b;
    } else {
      PutBitsStep(buf, pos, a);
      PutBitsStep(buf, pos, a + b);
      assert (a + b)[1..] == a[1..] + b;
      PutBitsSplit(buf[pos / 8 := WithBit(buf[pos / 8], pos, a[0])], pos + 1, a[1..], b);
    }
  }

  lemma PutBitsEnd(buf: seq<Byte>, pos: nat)
    requires pos <= 8 * |buf|
    ensures PutBits(buf, pos, []) == buf
  {}

  lemma WithBitIsByte(byte: Byte, n: nat, b: bool)
    ensures 0 <= WithBit(byte, n, b) < 256
    ensures n % 8 > 0 ==> (BitOf(WithBit(byte, n, b), 0) <==> BitOf(byte, 0))
  {
    hide SetBit;
    assert Pow2(8) == 256 by { assert Pow2(4) == 16; }
  }

  lemma {:induction false} PutBitsStores(buf: seq<Byte>, stream: seq<bool>, bits: seq<bool>)
    requires Stores(buf, stream) && |stream| + |bits| <= 8 * |buf|
    ensures Stores(PutBits(buf, |stream|, bits), stream + bits)
    decreases |bits|
  {
    hide StoresBut, WithBit;
    if bits == [] {
      assert stream + bits == stream;
    } else {
      var byte := WithBit(buf[|stream| / 8], |stream|, bits[0]);
      WithBitIsByte(buf[|stream| / 8], |stream|, bits[0]);
      StoresBit(buf, buf[|stream| / 8 := byte], stream, {}, bits[0]);
      PutBitsStores(buf[|stream| / 8 := byte], stream + [bits[0]], bits[1..]);
      assert stream + [bits[0]] + bits[1..] == stream + bits;
    }
  }

  /** Once a byte's lowest bit has been passed, no later write touches it. */
  lemma {:induction false} PutBitsKeepsLowBit(buf: seq<Byte>, pos: nat, bits: seq<bool>, j: nat)
    requires pos + |bits| <= 8 * |buf| && j < |buf| && 8 * j < pos
    ensures BitOf(PutBits(buf, pos, bits)[j], 0) <==> BitOf(buf[j], 0)
    decreases |bits|
  {
    hide WithBit, BitOf;
    if bits != [] {
      WithBitIsByte(buf[pos / 8], pos, bits[0]);
      var byte := WithBit(buf[pos / 8], pos, bits[0]);
      assert pos / 8 == j ==> pos % 8 > 0;
      PutBitsKeepsLowBit(buf[pos / 8 := byte], pos + 1, bits[1..], j);
    }
  }

  /** The buffer after growing: the whole bytes before the offset, then memory nobody has written. */
  function Grown(buf: seq<Byte>, stream: seq<bool>, junk: seq<Byte>): seq<Byte>
    requires |stream| / 8 <= |buf|
  {
    buf[..|stream| / 8] + junk
  }

  /** What is left after growing and then writing: some content of the fresh memory accounts for it. */
  ghost predicate WrittenAfterGrowth(buf: seq<Byte>, stream: seq<bool>, more: seq<bool>, after: seq<Byte>)
    requires |stream| / 8 <= |buf|
  {
    exists junk: seq<Byte> ::
      |stream| + |more| <= 8 * (|stream| / 8 + |junk|) &&
      after == PutBits(Grown(buf, stream, junk), |stream|, more)
  }

  lemma GrowthWitness(buf: seq<Byte>, stream: seq<bool>, more: seq<bool>, junk: seq<Byte>, after: seq<Byte>)
    requires |stream| / 8 <= |buf| && |stream| + |more| <= 8 * (|stream| / 8 + |junk|)
    requires after == PutBits(Grown(buf, stream, junk), |stream|, more)
    ensures WrittenAfterGrowth(buf, stream, more, after)
  {}

  /** Fresh memory whose first byte differs from the stream's open byte in the lowest bit. */
  function Spoiler(stream: seq<bool>, n: nat): (junk: seq<Byte>)
    requires |stream| % 8 > 0
    ensures |junk| == n
  {
    seq(n, _ => if stream[8 * (|stream| / 8)] then 0 else 1)
  }

  /** Growing with a byte open spoils it for some content of the fresh memory, whatever is written next. */
  lemma OpenByteIsLost(buf: seq<Byte>, stream: seq<bool>, n: nat, more: seq<bool>)
    requires |stream| % 8 > 0 && |stream| / 8 <= |buf|
    requires n >= 1 && |stream| + |more| <= 8 * (|stream| / 8 + n)
    ensures var grown := Grown(buf, stream, Spoiler(stream, n));
            !Stores(PutBits(grown, |stream|, more), stream + more)
  {
    var j := |stream| / 8;
    var grown := Grown(buf, stream, Spoiler(stream, n));
    hide PutBits;
    PutBitsKeepsLowBit(grown, |stream|, more, j);
    var after := PutBits(grown, |stream|, more);
    assert grown[j] == Spoiler(stream, n)[0];
    assert BitOf(after[j], 0) != (stream + more)[8 * j];
    assert (8 * j) / 8 == j && (8 * j) % 8 == 0;
  }

  lemma WholeBytesSurvive(buf: seq<Byte>, stream: seq<bool>, junk: seq<Byte>)
    requires Stores(buf, stream) && |stream| % 8 == 0
    ensures Stores(Grown(buf, stream, junk), stream)
  {}

  /**
   * Growing and then writing gives the right bytes for every content of the fresh memory exactly
   * when no byte is open at the time, that is, when bitOffset is 0.
   */
  lemma GrowthIsSafeIffAligned(buf: seq<Byte>, stream: seq<bool>, n: nat, more: seq<bool>)
    requires Stores(buf, stream) && n >= 1 && |stream| + |more| <= 8 * (|stream| / 8 + n)
    ensures (forall junk: seq<Byte> | |junk| == n ::
               Stores(PutBits(Grown(buf, stream, junk), |stream|, more), stream + more))
            <==> |stream| % 8 == 0
  {
    assert |stream| / 8 <= |buf|;
    hide StoresBut, PutBits, Spoiler;
    if |stream| % 8 == 0 {
      forall junk: seq<Byte> | |junk| == n
        ensures Stores(PutBits(Grown(buf, stream, junk), |stream|, more), stream + more)
      {
        WholeBytesSurvive(buf, stream, junk);
        PutBitsStores(Grown(buf, stream, junk), stream, more);
      }
    } else {
      OpenByteIsLost(buf, stream, n, more);
    }
  }

  function Trues(n: nat): (r: seq<bool>)
    ensures |r| == n
  {
    seq(n, _ => true)
  }

  lemma PutTrue(buf: seq<Byte>, pos: nat, n: nat, after: seq<Byte>)
    requires n > 0 && pos + n <= 8 * |buf|
    requires |after| == |buf| && after == buf[pos / 8 := after[pos / 8]]
    requires after[pos / 8] == WithBit(buf[pos / 8], pos, true)
    ensures PutBits(buf, pos, Trues(n)) == PutBits(after, pos + 1, Trues(n - 1))
  {
    assert Trues(n)[1..] == Trues(n - 1);
  }

  lemma PutNothing(buf: seq<Byte>, pos: nat)
    requires pos <= 8 * |buf|
    ensures PutBits(buf, pos, Trues(0)) == buf
  {}

  /** Bits set one after another, starting at bit 0 or bit 4 of a zero byte. */
  lemma SetBitsInTurn()
    ensures WithBit(0, 0, true) == 1 && WithBit(1, 1, true) == 3
    ensures WithBit(3, 2, true) == 7 && WithBit(7, 3, true) == 15
    ensures WithBit(0, 4, true) == 16 && WithBit(16, 5, true) == 48
    ensures WithBit(48, 6, true) == 112 && WithBit(112, 7, true) == 240
    ensures WithBit(0, 8, true) == 1 && WithBit(1, 9, true) == 3
    ensures WithBit(3, 10, true) == 7 && WithBit(7, 11, true) == 15
  {}

  /**
   * A writer of capacity 1 takes four set bits, then eight more. It grows in between, and where the
   * new memory is zero the four bits are gone: 0xf0 0x0f instead of 0xff 0x0f.
   */
  lemma FourThenEightBits()
    ensures PutBits([0], 0, Trues(4)) == [15] && Stores([15], Trues(4))
    ensures PutBits(Grown([15], Trues(4), [0, 0]), 4, Trues(8)) == [0xf0, 0x0f]
    ensures !Stores([0xf0, 0x0f], Trues(12)) && Stores([0xff, 0x0f], Trues(12))
  {
    StoredOnes();
    SetBitsInTurn();
    hide WithBit, StoresBut, PutBits, Trues, BitOf;
    PutNothing([15], 4);
    PutNothing([240, 15], 12);
    PutTrue([0], 0, 4, [1]);
    PutTrue([1], 1, 3, [3]);
    PutTrue([3], 2, 2, [7]);
    PutTrue([7], 3, 1, [15]);
    assert Grown([15], Trues(4), [0, 0]) == [0, 0];
    PutTrue([0, 0], 4, 8, [16, 0]);
    PutTrue([16, 0], 5, 7, [48, 0]);
    PutTrue([48, 0], 6, 6, [112, 0]);
    PutTrue([112, 0], 7, 5, [240, 0]);
    PutTrue([240, 0], 8, 4, [240, 1]);
    PutTrue([240, 1], 9, 3, [240, 3]);
    PutTrue([240, 3], 10, 2, [240, 7]);
    PutTrue([240, 7], 11, 1, [240, 15]);
  }

  lemma StoredOnes()
    ensures Stores([15], Trues(4)) && Stores([0xff, 0x0f], Trues(12)) && !Stores([0xf0, 0x0f], Trues(12))
  {
    var lost: seq<Byte> := [0xf0, 0x0f];
    assert Trues(12)[0] && !BitOf(lost[0 / 8], 0 % 8);
    assert BitOf(15, 0) && BitOf(15, 1) && BitOf(15, 2) && BitOf(15, 3);
    assert !BitOf(15, 4) && !BitOf(15, 5) && !BitOf(15, 6) && !BitOf(15, 7);
    assert BitOf(255, 0) && BitOf(255, 1) && BitOf(255, 2) && BitOf(255, 3);
    assert BitOf(255, 4) && BitOf(255, 5) && BitOf(255, 6) && BitOf(255, 7);
  }

  /**
   * stream is what has been written so far. The buffer stores it but for the bytes that were
   * half full when the writer grew (torn): ensure copies whole bytes only.
   */
  class BinaryWriter {
    var buffer: array<Byte>
    var offset: nat
    var bitOffset: nat
    ghost var stream: seq<bool>
    ghost var torn: set<nat>
    ghost const capacity: nat

    ghost predicate Valid()
      reads this, buffer
    {
      && Located()
      && (torn != {} ==> BytesFor(|stream|) > capacity)
    }

    ghost predicate Located()
      reads this, buffer
    {
      && bitOffset < 8
      && |stream| == 8 * offset + bitOffset
      && BytesFor(|stream|) <= buffer.Length
      && 1 <= capacity <= buffer.Length
      && StoresBut(buffer[..], stream, torn)
    }

    /** Of capacity 0, on which nothing can be written, the source makes a writer too. */
    constructor (initialSize: nat := 256)
      ensures fresh(buffer) && buffer.Length == initialSize && offset == 0 && bitOffset == 0
      ensures stream == [] && torn == {} && capacity == initialSize
      ensures initialSize >= 1 ==> Valid()
    {
      buffer := new Byte[initialSize];
      offset, bitOffset := 0, 0;
      stream, torn, capacity := [], {}, initialSize;
    }

    method AlignToByte()
      requires Located()
      modifies this
      ensures Located() && bitOffset == 0 && torn == old(torn) && buffer == old(buffer)
      ensures stream == old(stream) + Falses(Padding(|old(stream)|))
    {
      hide StoresBut, Padding, BytesFor;
      AlignmentEndsByte(offset, bitOffset);
      AlignmentEndsByte(offset + 1, 0);
      if bitOffset != 0 {
        offset := offset + 1;
        bitOffset := 0;
      }
      StoresAligned(buffer[..], stream, torn);
      stream := stream + Falses(Padding(|stream|));
    }

    /** Doubles until size more bytes fit after offset; copies only the bytes before offset. */
    method Ensure(size: nat)
      requires Located()
      modifies this
      ensures Located() && offset + size <= buffer.Length
      ensures unchanged(`offset) && unchanged(`bitOffset) && stream == old(stream)
      ensures fresh(buffer) || buffer == old(buffer)
      ensures buffer != old(buffer) <==> offset + size > old(buffer.Length)
      ensures buffer != old(buffer) ==> buffer[..] == Grown(old(buffer[..]), stream, buffer[offset..])
      ensures torn == old(torn) + if buffer != old(buffer) && bitOffset != 0 then {offset} else {}
    {
      var required := offset + size;
      if required <= buffer.Length {
        return;
      }
      var nextSize := buffer.Length;
      while nextSize < required
        invariant nextSize >= buffer.Length >= 1
        decreases required - nextSize
      {
        nextSize := nextSize * 2;
      }
      var next := new Byte[nextSize];
      forall i | 0 <= i < offset {
        next[i] := buffer[i];
      }
      assert next[..] == Grown(buffer[..], stream, next[offset..]);
      torn := torn + if bitOffset != 0 then {offset} else {};
      GrownStoresBut(buffer[..], next[..], stream, old(torn), torn);
      buffer := next;
    }

    /** One turn of the writeBits loop. */
    method AppendBit(b: bool)
      requires Located() && offset < buffer.Length
      modifies this, buffer
      ensures Located() && stream == old(stream) + [b]
      ensures torn == old(torn) && buffer == old(buffer)
      ensures |stream| <= 8 * buffer.Length
      ensures buffer[..] == PutBits(old(buffer[..]), |old(stream)|, [b])
    {
      hide StoresBut, BitOf, SetBit;
      PutBitsStep(buffer[..], |stream|, [b]);
      PutBitsEnd(buffer[..][offset := WithBit(buffer[offset], |stream|, b)], |stream| + 1);
      if bitOffset == 0 {
        buffer[offset] := 0;
      }
      if b {
        assert Pow2(8) == 256 by { assert Pow2(4) == 16; }
        buffer[offset] := SetBit(buffer[offset], bitOffset);
      }
      StoresBit(old(buffer[..]), buffer[..], stream, torn, b);
      stream := stream + [b];
      bitOffset := bitOffset + 1;
      if bitOffset == 8 {
        bitOffset := 0;
        offset := offset + 1;
      }
    }

    /** The writeBits loop, once there is room. */
    method AppendBits(value: nat, count: nat)
      requires Located() && BytesFor(|stream| + count) <= buffer.Length
      modifies this, buffer
      ensures Located() && buffer == old(buffer) && torn == old(torn)
      ensures stream == old(stream) + Bits(value, count)
      ensures |stream| <= 8 * buffer.Length
      ensures buffer[..] == PutBits(old(buffer[..]), |old(stream)|, Bits(value, count))
    {
      ghost var start, before, bits := stream, buffer[..], Bits(value, count);
      hide StoresBut, Bits, PutBits, WithBit, Pow2;
      PutBitsEnd(before, |start|);
      for index := 0 to count
        invariant buffer == old(buffer) && torn == old(torn) && |before| == buffer.Length
        invariant Located() && |start| + count <= 8 * buffer.Length
        invariant stream == start + bits[..index]
        invariant buffer[..] == PutBits(before, |start|, bits[..index])
      {
        BitsAt(value, count, index);
        PutBitsSplit(before, |start|, bits[..index], [bits[index]]);
        assert bits[..index + 1] == bits[..index] + [bits[index]];
        AppendBit(value / Pow2(index) % 2 == 1);
      }
      assert bits[..count] == bits;
    }

    method WriteBits(value: int, count: int) returns (ok: bool)
      requires Valid()
      modifies this, buffer
      ensures Valid() && (fresh(buffer) || buffer == old(buffer))
      ensures ok <==> Fits(value, count)
      ensures stream == if ok then old(stream) + Bits(value, count) else old(stream)
      ensures !ok ==> buffer == old(buffer) && buffer[..] == old(buffer[..])
      ensures ok && buffer == old(buffer) ==>
                |buffer[..]| * 8 >= |stream| &&
                buffer[..] == PutBits(old(buffer[..]), |old(stream)|, Bits(value, count))
      ensures ok && buffer != old(buffer) ==>
              WrittenAfterGrowth(old(buffer[..]), old(stream), Bits(value, count), buffer[..])
    {
      if !(0 <= count <= 32) {
        return false;
      }
      if value > MAX_SAFE || value < 0 || (count < 32 && value >= Pow2(count)) {
        return false;
      }
      assert Fits(value, count);
      if count == 0 {
        return true;
      }
      hide StoresBut, Bits, PutBits, Pow2, WrittenAfterGrowth, Grown, Fits;
      ghost var start, before := stream, buffer[..];
      Ensure(BytesFor(bitOffset + count));
      ghost var junk := buffer[offset..];
      AppendBits(value, count);
      if buffer != old(buffer) {
        GrowthWitness(before, start, Bits(value, count), junk, buffer[..]);
      }
      return true;
    }

    method WriteBool(value: bool)
      requires Valid()
      modifies this, buffer
      ensures Valid() && (fresh(buffer) || buffer == old(buffer))
      ensures stream == old(stream) + [value]
    {
      var n := if value then 1 else 0;
      assert Pow2(1) == 2 && Bits(n, 1) == [value];
      var _ := WriteBits(n, 1);
    }

    method WriteBounded(value: int, min: int, max: int) returns (ok: bool)
      requires Valid()
      modifies this, buffer
      ensures Valid() && (fresh(buffer) || buffer == old(buffer))
      ensures ok <==> min <= value <= max && min < max && Width(max - min) <= 32
      ensures ok ==> stream == old(stream) + Bits(value - min, Width(max - min))
    {
      if min >= max || value < min || value > max {
        return false;
      }
      hide Width, Pow2, Bits, Fits;
      WidthBounds(value - min, max - min);
      ok := WriteBits(value - min, Width(max - min));
    }

    method WriteCompressed(value: int, max: int) returns (ok: bool)
      requires Valid()
      modifies this, buffer
      ensures Valid() && (fresh(buffer) || buffer == old(buffer))
      ensures ok <==> 0 <= max <= 0xffff_ffff && 0 <= value <= max && Width(max) <= 32
      ensures ok ==> stream == old(stream) + Bits(value, Width(max))
    {
      if max < 0 || max > 0xffff_ffff || value < 0 || value > max {
        return false;
      }
      hide Width, Pow2, Bits, Fits;
      WidthBounds(value, max);
      ok := WriteBits(value, Width(max));
    }

    /** A byte at the aligned position. */
    method AppendByte(b: Byte)
      requires Located() && bitOffset == 0 && offset < buffer.Length
      modifies this, buffer
      ensures Located() && bitOffset == 0 && stream == old(stream) + Bits(b, 8)
      ensures torn == old(torn) && buffer == old(buffer)
    {
      hide StoresBut;
      buffer[offset] := b;
      StoresByte(old(buffer[..]), buffer[..], stream, torn);
      stream := stream + Bits(b, 8);
      offset := offset + 1;
    }

    /**
     * writeUInt8/16/32/64: little-endian bytes. The first three mask to the width; the last throws,
     * once it has aligned and made room, when the value does not fit.
     */
    method WriteUInt(value: int, bytes: nat) returns (ok: bool)
      requires Valid()
      modifies this, buffer
      ensures Valid() && (fresh(buffer) || buffer == old(buffer))
      ensures ok <==> bytes != 8 || 0 <= value < Pow2(64)
      ensures stream == old(stream) + Falses(Padding(|old(stream)|)) +
                        if ok then Bits(value % Pow2(8 * bytes), 8 * bytes) else []
    {
      hide StoresBut, Padding, BytesFor, Bits, Pow2;
      ok := bytes != 8 || 0 <= value < Pow2(64);
      if ok {
        WriteLittleEndian(value % Pow2(8 * bytes), bytes);
      } else {
        AlignToByte();
        BytesForMonotone(|old(stream)|, |stream|);
        Ensure(bytes);
      }
    }

    method WriteLittleEndian(value: nat, bytes: nat)
      requires Valid()
      modifies this, buffer
      ensures Valid() && (fresh(buffer) || buffer == old(buffer))
      ensures stream == old(stream) + Falses(Padding(|old(stream)|)) + Bits(value, 8 * bytes)
    {
      hide StoresBut, Padding, BytesFor;
      AlignToByte();
      BytesForMonotone(|old(stream)|, |stream|);
      Ensure(bytes);
      ghost var start := stream;
      var rest := value;
      for j := 0 to bytes
        invariant buffer == old(buffer) || fresh(buffer)
        invariant Located() && bitOffset == 0 && |stream| == |start| + 8 * j
        invariant |start| / 8 + bytes <= buffer.Length
        invariant stream + Bits(rest, 8 * (bytes - j)) == start + Bits(value, 8 * bytes)
        invariant torn != {} ==> BytesFor(|start|) > capacity
      {
        LowByteFirst(stream, rest, 8 * (bytes - j));
        AppendByte(rest % 256);
        rest := rest / 256;
      }
      BytesForMonotone(|start|, |stream|);
    }

    method WriteBytes(value: seq<Byte>)
      requires Valid()
      modifies this, buffer
      ensures Valid() && (fresh(buffer) || buffer == old(buffer))
      ensures stream == old(stream) + Falses(Padding(|old(stream)|)) + Unpack(value)
    {
      hide StoresBut, Bits, Padding, BytesFor;
      assert Unpack(value[..0]) == [];
      hide Unpack;
      AlignToByte();
      BytesForMonotone(|old(stream)|, |stream|);
      Ensure(|value|);
      ghost var start := stream;
      for j := 0 to |value|
        invariant buffer == old(buffer) || fresh(buffer)
        invariant Located() && bitOffset == 0 && |stream| == |start| + 8 * j
        invariant |start| / 8 + |value| <= buffer.Length
        invariant stream == start + Unpack(value[..j])
        invariant torn != {} ==> BytesFor(|start|) > capacity
      {
        UnpackNext(value, j);
        AppendByte(value[j]);
      }
      assert value[..|value|] == value;
      BytesForMonotone(|start|, |stream|);
    }

    /** Zero bytes. */
    method Pad(size: nat)
      requires Valid()
      modifies this, buffer
      ensures Valid() && (fresh(buffer) || buffer == old(buffer))
      ensures stream == old(stream) + Falses(Padding(|old(stream)|)) + Unpack(seq(size, _ => 0))
    {
      WriteBytes(seq(size, _ => 0));
    }

    /** The finished bytes: the stream, zero-padded, in every byte that growth has not torn. */
    method ToBuffer() returns (bytes: seq<Byte>)
      requires Valid()
      modifies this
      ensures |bytes| == BytesFor(|old(stream)|)
      ensures AgreeBut(Unpack(bytes), old(stream) + Falses(Padding(|old(stream)|)), old(torn))
      ensures old(torn) == {} ==> Unpack(bytes) == old(stream) + Falses(Padding(|old(stream)|))
      ensures old(torn) != {} ==> |bytes| > capacity
    {
      AlignToByte();
      bytes := buffer[..offset];
      StoresUnpacks(buffer[..], stream, torn);
    }
  }

  /** A value within a range fits the range's width, and is a safe integer when that is at most 32. */
  lemma WidthBounds(v: nat, range: nat)
    requires v <= range
    ensures Fits(v, Width(range)) <==> Width(range) <= 32
  {
    if Width(range) <= 32 {
      Pow2Monotone(Width(range), 32);
      Pow2Of32();
    }
  }

  // ----- Fields wider than their value's check -----

  lemma FieldNumber(v: nat, n: nat)
    ensures Number(Bits(v, n)) == v % Pow2(n)
  {
    LowBits(v, n);
    NumberOfBits(v % Pow2(n), n);
  }

  /** Of what writeBits accepts, exactly the values that fit their field are read back. */
  lemma FieldSurvivesIff(value: int, count: int)
    requires Fits(value, count)
    ensures Number(Bits(value, count)) == value <==> value < Pow2(count)
    ensures value >= Pow2(count) ==> count == 32
  {
    FieldNumber(value, count);
    if value < Pow2(count) {
      NumberOfBits(value, count);
    }
  }

  /** In 32 bits the least number that does not fit is accepted, and read back as 0. */
  lemma WideValueIsLost()
    ensures Fits(0x1_0000_0000, 32) && Number(Bits(0x1_0000_0000, 32)) == 0
  {
    Pow2Of32();
    FieldNumber(0x1_0000_0000, 32);
    hide Bits, Number, Pow2;
  }

  lemma Pow2Of32()
    ensures Pow2(32) == 0x1_0000_0000
  {
    assert Pow2(8) == 256 by { assert Pow2(4) == 16; }
    Pow2Adds(8, 8);
    Pow2Adds(16, 16);
  }

  lemma {:induction false} Pow2Monotone(a: nat, b: nat)
    requires a <= b
    ensures Pow2(a) <= Pow2(b)
  {
    if a < b {
      Pow2Monotone(a, b - 1);
    }
  }

  lemma BytesForMonotone(a: nat, b: nat)
    requires a <= b
    ensures BytesFor(a) <= BytesFor(b)
  {}

  /** The bytes before the offset are copied; the one that was open is not. */
  lemma GrownStoresBut(before: seq<Byte>, after: seq<Byte>, stream: seq<bool>, torn: set<nat>, more: set<nat>)
    requires StoresBut(before, stream, torn) && BytesFor(|stream|) <= |after|
    requires forall j :: 0 <= j < |stream| / 8 ==> after[j] == before[j]
    requires more == torn + if |stream| % 8 != 0 then {|stream| / 8} else {}
    ensures StoresBut(after, stream, more)
  {
    hide BitOf;
  }

  lemma StoresByte(before: seq<Byte>, after: seq<Byte>, stream: seq<bool>, torn: set<nat>)
    requires StoresBut(before, stream, torn) && |stream| % 8 == 0 && |after| == |before| && |stream| / 8 < |before|
    requires forall j :: 0 <= j < |before| && j != |stream| / 8 ==> after[j] == before[j]
    ensures StoresBut(after, stream + Bits(after[|stream| / 8], 8), torn)
  {
    var b := after[|stream| / 8];
    forall i | 0 <= i < |stream| + 8 && i / 8 !in torn
      ensures BitOf(after[i / 8], i % 8) == (stream + Bits(b, 8))[i]
    {
      if i >= |stream| {
        BitOfBits(b, 8, i - |stream|);
      }
    }
  }

  lemma LowByteFirst(written: seq<bool>, v: nat, n: nat)
    requires n >= 8
    ensures written + Bits(v, n) == written + Bits(v % 256, 8) + Bits(v / 256, n - 8)
  {
    assert Pow2(8) == 256 by { assert Pow2(4) == 16; }
    BitsSplit(v, 8, n - 8);
    ShiftIsDivide(v, 8);
    LowBits(v, 8);
  }

  lemma {:induction false} LowBits(v: nat, n: nat)
    ensures Bits(v % Pow2(n), n) == Bits(v, n)
  {
    if n > 0 {
      LowBits(v / 2, n - 1);
      ModHalf(v, Pow2(n - 1));
    }
  }

  lemma ModHalf(v: nat, p: nat)
    requires p >= 1
    ensures v % (2 * p) % 2 == v % 2
    ensures v % (2 * p) / 2 == v / 2 % p
  {
    var q, m := v / 2 / p, v / 2 % p;
    assert v == 2 * (p * q + m) + v % 2;
    assert 2 * (p * q) == (2 * p) * q;
    Remainder(v, 2 * p, q, 2 * m + v % 2);
  }
}
