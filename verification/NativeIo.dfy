/** The two modes of the source's traversal, run on the real writer and reader objects. */
module NativeIos {
  import opened Octets
  import opened Options
  import opened BitStreams
  import opened Schemas
  import W = BinaryWriters
  import R = BinaryReaders

  // ----- Writer mode -----

  method WriteNum(w: W.BinaryWriter, s: Schema, n: int) returns (ok: bool)
    requires w.Valid()
    modifies w, w.buffer
    ensures w.Valid() && (fresh(w.buffer) || w.buffer == old(w.buffer))
    ensures ok <==> EmitNum(s, n, |old(w.stream)|).Some?
    ensures ok ==> w.stream == old(w.stream) + EmitNum(s, n, |old(w.stream)|).value
  {
    hide Bits, Padding, Width, Pow2;
    match s
    case BitField(count) => ok := w.WriteBits(n, count);
    case Bounded(min, max) => ok := w.WriteBounded(n, min, max);
    case Compressed(max) => ok := w.WriteCompressed(n, max);
    case UInt(k) =>
      ok := w.WriteUInt(n, k);
      if ok {
        Rejoin(w, old(w.stream), EmitNum(s, n, |old(w.stream)|).value, Bits(n % Pow2(8 * k), 8 * k));
      }
    case _ => ok := false;
  }

  lemma Rejoin(w: W.BinaryWriter, before: seq<bool>, out: seq<bool>, tail: seq<bool>)
    requires out == Aligned(|before|, tail)
    ensures before + Falses(Padding(|before|)) + tail == before + out
  {}

  method WriteValue(w: W.BinaryWriter, s: Schema, v: Value) returns (ok: bool)
    requires w.Valid()
    modifies w, w.buffer
    ensures w.Valid() && (fresh(w.buffer) || w.buffer == old(w.buffer))
    ensures ok <==> Emit(s, v, |old(w.stream)|).Some?
    ensures ok ==> w.stream == old(w.stream) + Emit(s, v, |old(w.stream)|).value
    decreases s, 0
  {
    hide EmitNum, EmitAll, EmitEach, Bits, Padding, Unpack, Live, Aligned;
    match s
    case Flag =>
      if !v.Flg? {
        return false;
      }
      w.WriteBool(v.b);
      ok := true;
    case Raw(size) =>
      if !(v.Blob? && |v.bytes| == size) {
        return false;
      }
      WriteAligned(w, v.bytes);
      ok := true;
    case Skip(size) =>
      w.Pad(size);
      RejoinSkip(w, old(w.stream), size);
      ok := true;
    case Text(room) => ok := WriteText(w, room, v);
    case Struct(fields) =>
      if !v.Tuple? {
        return false;
      }
      ok := WriteAll(w, fields, v.vs);
    case Counted(limit, elem) =>
      if !v.Tuple? {
        return false;
      }
      ok := WriteNum(w, Bounded(0, limit), |v.vs|);
      if ok {
        ok := WriteEach(w, elem, v.vs);
      }
    case Gated(body) =>
      if !(v.Tuple? && |v.vs| <= 1) {
        return false;
      }
      w.WriteBool(|v.vs| == 1);
      ok := true;
      if |v.vs| == 1 {
        ok := WriteValue(w, body, v.vs[0]);
      }
    case MaskedFlags(limit, n) => ok := WriteMasked(w, limit, n, v);
    case _ =>
      if !v.Num? {
        return false;
      }
      ok := WriteNum(w, s, v.n);
  }

  method WriteAligned(w: W.BinaryWriter, bytes: seq<Byte>)
    requires w.Valid()
    modifies w, w.buffer
    ensures w.Valid() && (fresh(w.buffer) || w.buffer == old(w.buffer))
    ensures w.stream == old(w.stream) + Aligned(|old(w.stream)|, Unpack(bytes))
  {
    w.WriteBytes(bytes);
    Rejoin(w, old(w.stream), Aligned(|old(w.stream)|, Unpack(bytes)), Unpack(bytes));
  }

  lemma RejoinSkip(w: W.BinaryWriter, before: seq<bool>, size: nat)
    ensures before + Falses(Padding(|before|)) + Unpack(seq(size, _ => 0))
         == before + Aligned(|before|, Unpack(seq(size, _ => 0)))
  {}

  method WriteText(w: W.BinaryWriter, room: TextRoom, v: Value) returns (ok: bool)
    requires w.Valid()
    modifies w, w.buffer
    ensures w.Valid() && (fresh(w.buffer) || w.buffer == old(w.buffer))
    ensures ok <==> Emit(Text(room), v, |old(w.stream)|).Some?
    ensures ok ==> w.stream == old(w.stream) + Emit(Text(room), v, |old(w.stream)|).value
  {
    hide Bits, Padding, Unpack, Aligned;
    if !(v.Blob? && |v.bytes| + 1 <= room) {
      return false;
    }
    ok := WriteNum(w, UInt(4), |v.bytes| + 1);
    WriteAligned(w, v.bytes + [NUL]);
  }

  method WriteMasked(w: W.BinaryWriter, limit: nat, n: nat, v: Value) returns (ok: bool)
    requires w.Valid()
    modifies w, w.buffer
    ensures w.Valid() && (fresh(w.buffer) || w.buffer == old(w.buffer))
    ensures ok <==> Emit(MaskedFlags(limit, n), v, |old(w.stream)|).Some?
    ensures ok ==> w.stream == old(w.stream) + Emit(MaskedFlags(limit, n), v, |old(w.stream)|).value
  {
    hide EmitNum;
    if !IsMasked(v, n) {
      return false;
    }
    var count, flags := v.vs[0].n, v.vs[1].vs;
    ok := WriteNum(w, Bounded(0, limit), count);
    if !ok {
      return;
    }
    ghost var start := w.stream;
    for i := 0 to n
      invariant w.Valid() && (fresh(w.buffer) || w.buffer == old(w.buffer))
      invariant w.stream == start + Live(flags, count)[..i]
    {
      w.WriteBool(i < count && flags[i].b);
    }
    assert Live(flags, count)[..n] == Live(flags, count);
  }

  method WriteAll(w: W.BinaryWriter, fields: seq<Schema>, vs: seq<Value>) returns (ok: bool)
    requires w.Valid()
    modifies w, w.buffer
    ensures w.Valid() && (fresh(w.buffer) || w.buffer == old(w.buffer))
    ensures ok <==> EmitAll(fields, vs, |old(w.stream)|).Some?
    ensures ok ==> w.stream == old(w.stream) + EmitAll(fields, vs, |old(w.stream)|).value
    decreases fields, 0
  {
    hide Emit;
    if |fields| != |vs| {
      return false;
    }
    if fields == [] {
      return true;
    }
    ok := WriteValue(w, fields[0], vs[0]);
    if ok {
      ok := WriteAll(w, fields[1..], vs[1..]);
    }
  }

  method WriteEach(w: W.BinaryWriter, elem: Schema, vs: seq<Value>) returns (ok: bool)
    requires w.Valid()
    modifies w, w.buffer
    ensures w.Valid() && (fresh(w.buffer) || w.buffer == old(w.buffer))
    ensures ok <==> EmitEach(elem, vs, |old(w.stream)|).Some?
    ensures ok ==> w.stream == old(w.stream) + EmitEach(elem, vs, |old(w.stream)|).value
    decreases elem, 1 + |vs|
  {
    hide Emit;
    if vs == [] {
      return true;
    }
    ok := WriteValue(w, elem, vs[0]);
    if ok {
      ok := WriteEach(w, elem, vs[1..]);
    }
  }

  // ----- Reader mode -----

  method ReadNum(r: R.BinaryReader, s: Schema) returns (p: Parsed)
    requires r.Valid()
    modifies r
    ensures r.Valid() && (p.Done? ==> p.pos == r.Pos())
    ensures p == ParseNum(s, r.Source(), old(r.Pos())) && (p.Done? ==> p.value.Num?)
  {
    hide Number, Padding, Width, Unpack, Pow2;
    match s
    case BitField(count) =>
      var n := r.ReadBits(count);
      p := if n == None then Failed else Done(Num(n.value), 8 * r.offset + r.bitOffset);
    case Bounded(min, max) =>
      var n := r.ReadBounded(min, max);
      p := if n == None then Failed else Done(Num(n.value), 8 * r.offset + r.bitOffset);
    case Compressed(max) =>
      var n := r.ReadCompressed(max);
      p := if n == None then Failed else Done(Num(n.value), 8 * r.offset + r.bitOffset);
    case UInt(k) => p := ReadWord(r, k);
    case _ => p := Failed;
  }

  method ReadWord(r: R.BinaryReader, k: nat) returns (p: Parsed)
    requires r.Valid()
    modifies r
    ensures r.Valid() && (p.Done? ==> p.pos == r.Pos())
    ensures p == ParseNum(UInt(k), r.Source(), old(r.Pos())) && (p.Done? ==> p.value.Num?)
  {
    hide Number, Padding, Width, Unpack, Pow2;
    var n := r.ReadUInt(k);
    p := if n == None then Failed else Done(Num(n.value), 8 * r.offset + r.bitOffset);
  }

  method ReadBlob(r: R.BinaryReader, size: nat) returns (p: Parsed)
    requires r.Valid()
    modifies r
    ensures r.Valid() && (p.Done? ==> p.pos == r.Pos())
    ensures p == ParseBytes(size, r.Source(), old(r.Pos()))
  {
    hide Padding, Unpack, Pack;
    var raw := r.ReadBytes(size);
    if raw == None {
      return Failed;
    }
    PackUnpack(raw.value);
    return Done(Blob(raw.value), 8 * r.offset + r.bitOffset);
  }

  method ReadValue(r: R.BinaryReader, s: Schema) returns (p: Parsed)
    requires r.Valid()
    modifies r
    ensures r.Valid() && (p.Done? ==> p.pos == r.Pos())
    ensures p == Parse(s, r.Source(), old(r.Pos()))
    decreases s, 0
  {
    hide ParseNum, ParseBytes, ParseAll, ParseEach, Padding, Unpack, Flags;
    match s
    case Flag =>
      var b := r.ReadBool();
      p := if b == None then Failed else Done(Flg(b.value), 8 * r.offset + r.bitOffset);
    case Raw(size) => p := ReadBlob(r, size);
    case Skip(size) =>
      var ok := r.SkipBytes(size);
      p := if ok then Done(Tuple([]), 8 * r.offset + r.bitOffset) else Failed;
    case Text(room) => p := ReadText(r, room);
    case Struct(fields) => p := ReadAll(r, fields);
    case Counted(limit, elem) =>
      var count := ReadNum(r, Bounded(0, limit));
      if count == Failed {
        return Failed;
      }
      p := ReadEach(r, elem, count.value.n);
    case Gated(body) =>
      var b := r.ReadBool();
      if b == None {
        return Failed;
      }
      if !b.value {
        return Done(Tuple([]), 8 * r.offset + r.bitOffset);
      }
      var inner := ReadValue(r, body);
      p := if inner == Failed then Failed else Done(Tuple([inner.value]), inner.pos);
    case MaskedFlags(limit, n) => p := ReadMasked(r, limit, n);
    case _ => p := ReadNum(r, s);
  }

  method ReadText(r: R.BinaryReader, room: TextRoom) returns (p: Parsed)
    requires r.Valid()
    modifies r
    ensures r.Valid() && (p.Done? ==> p.pos == r.Pos())
    ensures p == Parse(Text(room), r.Source(), old(r.Pos()))
  {
    hide Padding, Unpack, Number, Pack;
    var len := ReadNum(r, UInt(4));
    if len == Failed {
      return Failed;
    }
    var n := len.value.n;
    if n < 1 || n > room {
      return Failed;
    }
    var raw := ReadBlob(r, n);
    if raw == Failed {
      return Failed;
    }
    if !(|raw.value.bytes| == n && raw.value.bytes[n - 1] == NUL) {
      return Failed;
    }
    return Done(Blob(raw.value.bytes[..n - 1]), raw.pos);
  }

  method ReadMasked(r: R.BinaryReader, limit: nat, n: nat) returns (p: Parsed)
    requires r.Valid()
    modifies r
    ensures r.Valid() && (p.Done? ==> p.pos == r.Pos())
    ensures p == Parse(MaskedFlags(limit, n), r.Source(), old(r.Pos()))
  {
    hide ParseNum, Unpack;
    var count := ReadNum(r, Bounded(0, limit));
    if count == Failed {
      return Failed;
    }
    ghost var start := r.Pos();
    var flags: seq<Value> := [];
    for i := 0 to n
      invariant r.Valid() && r.Pos() == start + i
      invariant flags == Flags(r.Source()[start..start + i])
    {
      var b := r.ReadBool();
      if b == None {
        return Failed;
      }
      flags := flags + [Flg(b.value)];
    }
    return Done(Tuple([count.value, Tuple(flags)]), 8 * r.offset + r.bitOffset);
  }

  method ReadAll(r: R.BinaryReader, fields: seq<Schema>) returns (p: Parsed)
    requires r.Valid()
    modifies r
    ensures r.Valid() && (p.Done? ==> p.pos == r.Pos())
    ensures p == ParseAll(fields, r.Source(), old(r.Pos()))
    decreases fields, 0
  {
    hide Parse, Unpack;
    if fields == [] {
      return Done(Tuple([]), 8 * r.offset + r.bitOffset);
    }
    var first := ReadValue(r, fields[0]);
    if first == Failed {
      return Failed;
    }
    var rest := ReadAll(r, fields[1..]);
    p := Cons(first.value, rest);
  }

  method ReadEach(r: R.BinaryReader, elem: Schema, n: int) returns (p: Parsed)
    requires r.Valid()
    modifies r
    ensures r.Valid() && (p.Done? ==> p.pos == r.Pos())
    ensures p == ParseEach(elem, n, r.Source(), old(r.Pos()))
    decreases elem, if n <= 0 then 1 else 1 + n
  {
    hide Parse, Unpack;
    if n <= 0 {
      return Done(Tuple([]), 8 * r.offset + r.bitOffset);
    }
    var first := ReadValue(r, elem);
    if first == Failed {
      return Failed;
    }
    var rest := ReadEach(r, elem, n - 1);
    p := Cons(first.value, rest);
  }
}
