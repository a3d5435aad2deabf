/** The bit-and-byte cursor: src/protocol/binary/BinaryReader.js. */
module BinaryReaders {
  import opened Octets
  import opened BitStreams
  import opened Options

  class BinaryReader {
    const buffer: seq<Byte>
    var offset: nat
    var bitOffset: nat

    ghost predicate Valid()
      reads this
    {
      bitOffset < 8 && Pos() <= 8 * |buffer|
    }

    ghost function Pos(): nat
      reads this
    {
      8 * offset + bitOffset
    }

    ghost function Source(): seq<bool> {
      Unpack(buffer)
    }

    constructor (buffer: seq<Byte>)
      ensures Valid() && Pos() == 0 && this.buffer == buffer
    {
      this.buffer := buffer;
      offset, bitOffset := 0, 0;
    }

    function Remaining(): int
      reads this
    {
      |buffer| - offset - (if bitOffset != 0 then 1 else 0)
    }

    function RemainingBits(): int
      reads this
    {
      (|buffer| - offset) * 8 - bitOffset
    }

    method AlignToByte()
      requires Valid()
      modifies this
      ensures Valid() && bitOffset == 0 && Pos() == old(Pos()) + Padding(old(Pos()))
    {
      if bitOffset != 0 {
        offset := offset + 1;
        bitOffset := 0;
      }
    }

    /** None, with nothing consumed, when fewer than count bits remain or count is not 0..32. */
    method ReadBits(count: int) returns (r: Option<nat>)
      requires Valid()
      modifies this
      ensures Valid()
      ensures r.Some? <==> 0 <= count <= 32 && old(Pos()) + count <= 8 * |buffer|
      ensures r.Some? ==> Pos() == old(Pos()) + count && r.value == Number(Source()[old(Pos())..Pos()])
      ensures r.None? ==> Pos() == old(Pos())
    {
      if !(0 <= count <= 32) || RemainingBits() < count {
        return None;
      }
      var value: nat := 0;
      ghost var start := Pos();
      for index := 0 to count
        invariant Valid() && Pos() == start + index
        invariant value == Number(Source()[start..start + index])
      {
        ghost var read := Source()[start..start + index];
        var bit := NextBit();
        assert Source()[start..start + index + 1] == read + [bit];
        NumberAppend(read, bit);
        value := value + (if bit then 1 else 0) * Pow2(index);
      }
      return Some(value);
    }

    method ReadBool() returns (r: Option<bool>)
      requires Valid()
      modifies this
      ensures Valid()
      ensures r.Some? <==> old(Pos()) < 8 * |buffer|
      ensures r.Some? ==> Pos() == old(Pos()) + 1 && r.value == Source()[old(Pos())]
    {
      var bits := ReadBits(1);
      if bits == None {
        return None;
      }
      ghost var read := Source()[old(Pos())..Pos()];
      assert read == [Source()[old(Pos())]] && read[1..] == [];
      return Some(bits.value != 0);
    }

    method ReadBounded(min: int, max: int) returns (r: Option<int>)
      requires Valid()
      modifies this
      ensures Valid()
      ensures var p := old(Pos());
              && (r.Some? <==> min < max && Width(max - min) <= 32 && p + Width(max - min) <= 8 * |buffer| &&
                               Number(Source()[p..p + Width(max - min)]) <= max - min)
              && (r.Some? ==> Pos() == p + Width(max - min) && r.value == min + Number(Source()[p..Pos()]))
    {
      hide Width, Number, Unpack;
      if min >= max {
        return None;
      }
      var encoded := ReadBits(Width(max - min));
      if encoded == None || encoded.value > max - min {
        return None;
      }
      return Some(min + encoded.value);
    }

    method ReadCompressed(max: int) returns (r: Option<int>)
      requires Valid()
      modifies this
      ensures Valid()
      ensures var p := old(Pos());
              && (r.Some? <==> 0 <= max <= 0xffff_ffff && Width(max) <= 32 && p + Width(max) <= 8 * |buffer| &&
                               Number(Source()[p..p + Width(max)]) <= max)
              && (r.Some? ==> Pos() == p + Width(max) && r.value == Number(Source()[p..Pos()]))
    {
      hide Width, Number, Unpack;
      if max < 0 || max > 0xffff_ffff {
        return None;
      }
      var value := ReadBits(Width(max));
      if value == None || value.value > max {
        return None;
      }
      return Some(value.value);
    }

    method SkipBytes(size: nat) returns (ok: bool)
      requires Valid()
      modifies this
      ensures Valid()
      ensures var p := old(Pos()) + Padding(old(Pos()));
              (ok <==> p + 8 * size <= 8 * |buffer|) && (ok ==> Pos() == p + 8 * size)
    {
      AlignToByte();
      if Remaining() < size {
        return false;
      }
      offset := offset + size;
      return true;
    }

    /** One turn of the readBits loop. */
    method NextBit() returns (bit: bool)
      requires Valid() && Pos() < 8 * |buffer|
      modifies this
      ensures Valid() && Pos() == old(Pos()) + 1 && bit == Source()[old(Pos())]
    {
      UnpackAt(buffer, Pos());
      bit := BitOf(buffer[offset], bitOffset);
      bitOffset := bitOffset + 1;
      if bitOffset == 8 {
        bitOffset := 0;
        offset := offset + 1;
      }
    }

    /** readBytes: align, then size whole bytes; None (after aligning) when fewer remain. */
    method ReadBytes(size: nat) returns (r: Option<seq<Byte>>)
      requires Valid()
      modifies this
      ensures Valid()
      ensures var p := old(Pos()) + Padding(old(Pos()));
              && (r.Some? <==> p + 8 * size <= 8 * |buffer|)
              && (r.Some? ==> Pos() == p + 8 * size && Unpack(r.value) == Source()[p..Pos()] && |r.value| == size)
    {
      AlignToByte();
      if Remaining() < size {
        return None;
      }
      UnpackSlice(buffer, offset, offset + size);
      r := Some(buffer[offset..offset + size]);
      offset := offset + size;
    }

    /** readUInt8/16/32/64. */
    method ReadUInt(bytes: nat) returns (r: Option<nat>)
      requires Valid()
      modifies this
      ensures Valid()
      ensures var p := old(Pos()) + Padding(old(Pos()));
              && (r.Some? <==> p + 8 * bytes <= 8 * |buffer|)
              && (r.Some? ==> Pos() == p + 8 * bytes && r.value == Number(Source()[p..Pos()]))
    {
      var raw := ReadBytes(bytes);
      if raw == None {
        return None;
      }
      var value := LittleEndian(raw.value);
      return Some(value);
    }
  }

  method LittleEndian(bytes: seq<Byte>) returns (value: nat)
    ensures value == Number(Unpack(bytes))
  {
    value := 0;
    var j := |bytes|;
    assert bytes[j..] == [];
    while j > 0
      invariant 0 <= j <= |bytes|
      invariant value == Number(Unpack(bytes[j..]))
    {
      j := j - 1;
      assert bytes[j..][1..] == bytes[j + 1..];
      NumberOfByteFirst(bytes[j], Unpack(bytes[j + 1..]));
      value := bytes[j] + 256 * value;
    }
    assert bytes[0..] == bytes;
  }

  lemma {:induction false} NumberAppend(bits: seq<bool>, b: bool)
    ensures Number(bits + [b]) == Number(bits) + (if b then 1 else 0) * Pow2(|bits|)
  {
    if bits == [] {
      assert ([b] + [])[1..] == [];
      assert [] + [b] == [b];
    } else {
      NumberAppend(bits[1..], b);
      assert (bits + [b])[1..] == bits[1..] + [b];
    }
  }

  lemma {:induction false} NumberConcat(a: seq<bool>, b: seq<bool>)
    ensures Number(a + b) == Number(a) + Pow2(|a|) * Number(b)
  {
    if a == [] {
      assert a + b == b;
    } else {
      NumberConcat(a[1..], b);
      assert (a + b)[1..] == a[1..] + b;
      DoubleProduct(Pow2(|a| - 1), Number(b));
    }
  }

  lemma DoubleProduct(x: nat, y: nat)
    ensures 2 * (x * y) == (2 * x) * y
  {}

  lemma NumberOfByteFirst(b: Byte, rest: seq<bool>)
    ensures Number(Bits(b, 8) + rest) == b + 256 * Number(rest)
  {
    assert Pow2(8) == 256 by { assert Pow2(4) == 16; }
    NumberOfBits(b, 8);
    NumberConcat(Bits(b, 8), rest);
  }

  lemma UnpackTakeDrop(bytes: seq<Byte>, i: nat)
    requires i <= |bytes|
    ensures Unpack(bytes[..i]) == Unpack(bytes)[..8 * i]
    ensures Unpack(bytes[i..]) == Unpack(bytes)[8 * i..]
  {
    hide Unpack;
    var a, b := bytes[..i], bytes[i..];
    assert bytes == a + b;
    UnpackAppend(a, b);
    var u, v := Unpack(a), Unpack(b);
    assert (u + v)[..|u|] == u && (u + v)[|u|..] == v;
  }

  lemma UnpackSlice(bytes: seq<Byte>, i: nat, j: nat)
    requires i <= j <= |bytes|
    ensures Unpack(bytes[i..j]) == Unpack(bytes)[8 * i..8 * j]
  {
    UnpackTakeDrop(bytes, j);
    UnpackTakeDrop(bytes[..j], i);
    assert bytes[..j][i..] == bytes[i..j];
  }
}
