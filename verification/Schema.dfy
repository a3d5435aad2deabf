/**
 * Wire layouts as data. The source runs one traversal over either a writer or a reader; here
 * a layout is a Schema, and Emit and Parse are the two readings of it.
 */
module Schemas {
  import opened Octets
  import opened Options
  import opened BitStreams
  import opened BinaryWriters

  datatype Value = Num(n: int) | Flg(b: bool) | Blob(bytes: seq<Byte>) | Tuple(vs: seq<Value>)

  /** Sizes that a text's four-byte length can express. */
  type TextRoom = n: nat | n < 0x1_0000_0000

  datatype Schema =
    | BitField(count: nat)                        // writeBits: a quantized code or a packed number
    | Flag                                        // writeBool
    | Bounded(min: int, max: int)
    | Compressed(max: int)
    | UInt(bytes: nat)                            // aligned, little-endian
    | Raw(size: nat)                              // aligned bytes
    | Skip(size: nat)                             // zero bytes
    | Text(room: TextRoom)                        // u32 length, then bytes ending in NUL
    | Struct(fields: seq<Schema>)
    | Counted(limit: nat, elem: Schema)           // bounded count, then that many
    | Gated(body: Schema)                         // a flag, then the body when it is set
    | MaskedFlags(limit: nat, n: nat)             // a count, then n flags of which only the first count are live

  datatype Parsed = Failed | Done(value: Value, pos: nat)

  const NUL: Byte := 0

  predicate BoundedOk(min: int, max: int) {
    min < max && Width(max - min) <= 32
  }

  // ----- Writing -----

  function Aligned(pos: nat, out: seq<bool>): seq<bool> {
    Falses(Padding(pos)) + out
  }

  function EmitNum(s: Schema, n: int, pos: nat): Option<seq<bool>> {
    match s
    case BitField(count) => if Fits(n, count) then Some(Bits(n, count)) else None
    case Bounded(min, max) =>
      if BoundedOk(min, max) && min <= n <= max then Some(Bits(n - min, Width(max - min))) else None
    case Compressed(max) =>
      if 0 <= max <= 0xffff_ffff && 0 <= n <= max && Width(max) <= 32 then Some(Bits(n, Width(max))) else None
    case UInt(k) =>
      if k == 8 && !(0 <= n < Pow2(64)) then None
      else Some(Aligned(pos, Bits(n % Pow2(8 * k), 8 * k)))
    case _ => None
  }

  /** The bits a writer at bit position pos appends, or None where the source throws. */
  function Emit(s: Schema, v: Value, pos: nat): Option<seq<bool>>
    decreases s, 0
  {
    match s
    case Flag => if v.Flg? then Some([v.b]) else None
    case Raw(size) => if v.Blob? && |v.bytes| == size then Some(Aligned(pos, Unpack(v.bytes))) else None
    case Skip(size) => Some(Aligned(pos, Unpack(seq(size, _ => 0))))
    case Text(room) =>
      if v.Blob? && |v.bytes| + 1 <= room then
        match EmitNum(UInt(4), |v.bytes| + 1, pos)
        case None => None
        case Some(len) => Some(len + Aligned(pos + |len|, Unpack(v.bytes + [NUL])))
      else None
    case Struct(fields) => if v.Tuple? then EmitAll(fields, v.vs, pos) else None
    case Counted(limit, elem) =>
      if v.Tuple? then
        match EmitNum(Bounded(0, limit), |v.vs|, pos)
        case None => None
        case Some(count) => Then(count, EmitEach(elem, v.vs, pos + |count|))
      else None
    case Gated(body) =>
      if v == Tuple([]) then Some([false])
      else if v.Tuple? && |v.vs| == 1 then Then([true], Emit(body, v.vs[0], pos + 1))
      else None
    case MaskedFlags(limit, n) =>
      if IsMasked(v, n) then
        match EmitNum(Bounded(0, limit), v.vs[0].n, pos)
        case None => None
        case Some(count) => Some(count + Live(v.vs[1].vs, v.vs[0].n))
      else None
    case _ => if v.Num? then EmitNum(s, v.n, pos) else None
  }

  function Then(first: seq<bool>, rest: Option<seq<bool>>): Option<seq<bool>> {
    match rest
    case None => None
    case Some(out) => Some(first + out)
  }

  function EmitAll(fields: seq<Schema>, vs: seq<Value>, pos: nat): Option<seq<bool>>
    decreases fields, 0
  {
    if |fields| != |vs| then None
    else if fields == [] then Some([])
    else
      match Emit(fields[0], vs[0], pos)
      case None => None
      case Some(first) => Then(first, EmitAll(fields[1..], vs[1..], pos + |first|))
  }

  function EmitEach(elem: Schema, vs: seq<Value>, pos: nat): Option<seq<bool>>
    decreases elem, 1 + |vs|
  {
    if vs == [] then Some([])
    else
      match Emit(elem, vs[0], pos)
      case None => None
      case Some(first) => Then(first, EmitEach(elem, vs[1..], pos + |first|))
  }

  predicate IsMasked(v: Value, n: nat) {
    && v.Tuple? && |v.vs| == 2 && v.vs[0].Num? && v.vs[1].Tuple? && |v.vs[1].vs| == n
    && forall f :: f in v.vs[1].vs ==> f.Flg?
  }

  /** Flags at or past the count are written as false. */
  function Live(flags: seq<Value>, count: int): (r: seq<bool>)
    requires forall f :: f in flags ==> f.Flg?
    ensures |r| == |flags|
  {
    seq(|flags|, i requires 0 <= i < |flags| => i < count && flags[i].b)
  }

  // ----- Reading -----

  function ParseNum(s: Schema, bits: seq<bool>, pos: nat): Parsed {
    match s
    case BitField(count) =>
      if count <= 32 && pos + count <= |bits| then Done(Num(Number(bits[pos..pos + count])), pos + count) else Failed
    case Bounded(min, max) =>
      if !BoundedOk(min, max) || pos + Width(max - min) > |bits| then Failed
      else
        var n := Number(bits[pos..pos + Width(max - min)]);
        if n > max - min then Failed else Done(Num(min + n), pos + Width(max - min))
    case Compressed(max) =>
      if !(0 <= max <= 0xffff_ffff) || Width(max) > 32 || pos + Width(max) > |bits| then Failed
      else
        var n := Number(bits[pos..pos + Width(max)]);
        if n > max then Failed else Done(Num(n), pos + Width(max))
    case UInt(k) =>
      var p := pos + Padding(pos);
      if p + 8 * k <= |bits| then Done(Num(Number(bits[p..p + 8 * k])), p + 8 * k) else Failed
    case _ => Failed
  }

  function ParseBytes(size: nat, bits: seq<bool>, pos: nat): Parsed {
    var p := pos + Padding(pos);
    if p + 8 * size <= |bits| then Done(Blob(Pack(bits[p..p + 8 * size])), p + 8 * size) else Failed
  }

  /** What a reader at bit position pos of bits returns and where it stops. */
  function Parse(s: Schema, bits: seq<bool>, pos: nat): Parsed
    decreases s, 0
  {
    match s
    case Flag => if pos < |bits| then Done(Flg(bits[pos]), pos + 1) else Failed
    case Raw(size) => ParseBytes(size, bits, pos)
    case Skip(size) =>
      var p := pos + Padding(pos);
      if p + 8 * size <= |bits| then Done(Tuple([]), p + 8 * size) else Failed
    case Text(room) =>
      (match ParseNum(UInt(4), bits, pos)
       case Failed => Failed
       case Done(len, p) =>
         if len.n < 1 || len.n > room then Failed
         else
           match ParseBytes(len.n, bits, p)
           case Failed => Failed
           case Done(raw, p') =>
             if |raw.bytes| == len.n && raw.bytes[len.n - 1] == NUL then Done(Blob(raw.bytes[..len.n - 1]), p')
             else Failed)
    case Struct(fields) => ParseAll(fields, bits, pos)
    case Counted(limit, elem) =>
      (match ParseNum(Bounded(0, limit), bits, pos)
       case Failed => Failed
       case Done(count, p) => ParseEach(elem, count.n, bits, p))
    case Gated(body) =>
      if pos >= |bits| then Failed
      else if !bits[pos] then Done(Tuple([]), pos + 1)
      else
        (match Parse(body, bits, pos + 1)
         case Failed => Failed
         case Done(v, p) => Done(Tuple([v]), p))
    case MaskedFlags(limit, n) =>
      (match ParseNum(Bounded(0, limit), bits, pos)
       case Failed => Failed
       case Done(count, p) =>
         if p + n > |bits| then Failed
         else Done(Tuple([count, Tuple(Flags(bits[p..p + n]))]), p + n))
    case _ => ParseNum(s, bits, pos)
  }

  function Flags(bits: seq<bool>): (r: seq<Value>)
    ensures |r| == |bits|
  {
    seq(|bits|, i requires 0 <= i < |bits| => Flg(bits[i]))
  }

  function Cons(first: Value, rest: Parsed): Parsed {
    match rest
    case Done(Tuple(vs), p) => Done(Tuple([first] + vs), p)
    case _ => Failed
  }

  function ParseAll(fields: seq<Schema>, bits: seq<bool>, pos: nat): Parsed
    decreases fields, 0
  {
    if fields == [] then Done(Tuple([]), pos)
    else
      match Parse(fields[0], bits, pos)
      case Failed => Failed
      case Done(v, p) => Cons(v, ParseAll(fields[1..], bits, p))
  }

  function ParseEach(elem: Schema, n: int, bits: seq<bool>, pos: nat): Parsed
    decreases elem, if n <= 0 then 1 else 1 + n
  {
    if n <= 0 then Done(Tuple([]), pos)
    else
      match Parse(elem, bits, pos)
      case Failed => Failed
      case Done(v, p) => Cons(v, ParseEach(elem, n - 1, bits, p))
  }

  // ----- What survives the trip -----

  /**
   * The values that come back unchanged: integers no wider than their field, flags past a count
   * unset, no content where nothing is stored. Everything else the writer takes is masked.
   */
  predicate Canonical(s: Schema, v: Value)
    decreases s, 0
  {
    match s
    case BitField(count) => v.Num? && v.n < Pow2(count)
    case UInt(k) => v.Num? && InWord(v.n, k)
    case Skip(_) => v == Tuple([])
    case Text(_) => v.Blob? && InWord(|v.bytes| + 1, 4)
    case Struct(fields) => v.Tuple? && AllCanonical(fields, v.vs)
    case Counted(_, elem) => v.Tuple? && forall x :: x in v.vs ==> Canonical(elem, x)
    case Gated(body) => v.Tuple? && forall x :: x in v.vs ==> Canonical(body, x)
    case MaskedFlags(_, n) =>
      IsMasked(v, n) && forall i :: 0 <= i < n && i >= v.vs[0].n ==> !v.vs[1].vs[i].b
    case _ => true
  }

  predicate InWord(n: int, bytes: nat) {
    0 <= n < Pow2(8 * bytes)
  }

  predicate AllCanonical(fields: seq<Schema>, vs: seq<Value>)
    decreases fields, 0
  {
    |fields| == |vs| &&
    (fields != [] ==> Canonical(fields[0], vs[0]) && AllCanonical(fields[1..], vs[1..]))
  }

  lemma PairCanonical(s1: Schema, s2: Schema, v1: Value, v2: Value)
    requires Canonical(s1, v1) && Canonical(s2, v2)
    ensures Canonical(Struct([s1, s2]), Tuple([v1, v2]))
  {
    assert [s1, s2][1..] == [s2] && [v1, v2][1..] == [v2];
    assert AllCanonical([s2], [v2]);
  }

  lemma PairEmits(s1: Schema, s2: Schema, v1: Value, v2: Value, pos: nat)
    requires Emit(s1, v1, pos).Some?
    requires Emit(s2, v2, pos + |Emit(s1, v1, pos).value|).Some?
    ensures Emit(Struct([s1, s2]), Tuple([v1, v2]), pos).Some?
  {
    var first := Emit(s1, v1, pos).value;
    var second := Emit(s2, v2, pos + |first|).value;
    EmitSingle(s2, v2, pos + |first|);
    StructEmits([s1, s2], [v1, v2], pos);
  }

  lemma EmitSingle(s: Schema, v: Value, pos: nat)
    requires Emit(s, v, pos).Some?
    ensures EmitAll([s], [v], pos).Some?
  {
    hide Emit;
    var first := Emit(s, v, pos).value;
    assert [s][1..] == [] && [v][1..] == [];
    assert EmitAll([], [], pos + |first|).Some?;
  }

  lemma StructEmits(fields: seq<Schema>, vs: seq<Value>, pos: nat)
    requires fields != [] && |fields| == |vs|
    requires Emit(fields[0], vs[0], pos).Some?
    requires EmitAll(fields[1..], vs[1..], pos + |Emit(fields[0], vs[0], pos).value|).Some?
    ensures Emit(Struct(fields), Tuple(vs), pos).Some?
  {}

  lemma AllCanonicalCons(s: Schema, fields: seq<Schema>, v: Value, vs: seq<Value>)
    requires Canonical(s, v) && AllCanonical(fields, vs)
    ensures AllCanonical([s] + fields, [v] + vs)
  {
    assert ([s] + fields)[1..] == fields && ([v] + vs)[1..] == vs;
  }

  lemma FieldRoundTrip(v: nat, n: nat, bits: seq<bool>, pos: nat)
    requires v < Pow2(n) && Holds(bits, pos, Bits(v, n))
    ensures pos + n <= |bits| && Number(bits[pos..pos + n]) == v
  {
    NumberOfBits(v, n);
  }

  lemma ModSmall(v: nat, p: nat)
    requires v < p
    ensures v % p == v
  {}

  lemma NumRoundTrip(s: Schema, n: int, bits: seq<bool>, pos: nat)
    requires EmitNum(s, n, pos).Some? && Canonical(s, Num(n))
    requires Holds(bits, pos, EmitNum(s, n, pos).value)
    ensures ParseNum(s, bits, pos) == Done(Num(n), pos + |EmitNum(s, n, pos).value|)
  {
    hide Bits, Number, Width, Padding, Pow2;
    match s
    case BitField(count) => FieldRoundTrip(n, count, bits, pos);
    case Bounded(min, max) => FieldRoundTrip(n - min, Width(max - min), bits, pos);
    case Compressed(max) => FieldRoundTrip(n, Width(max), bits, pos);
    case UInt(k) => WordRoundTrip(n, k, bits, pos);
  }

  lemma WordRoundTrip(n: int, k: nat, bits: seq<bool>, pos: nat)
    requires InWord(n, k) && Holds(bits, pos, Aligned(pos, Bits(n % Pow2(8 * k), 8 * k)))
    ensures ParseNum(UInt(k), bits, pos) ==
            Done(Num(n), pos + |Aligned(pos, Bits(n % Pow2(8 * k), 8 * k))|)
  {
    hide Bits, Number, Padding, Pow2, Aligned;
    ModSmall(n, Pow2(8 * k));
    AlignedSplit(bits, pos, Bits(n, 8 * k));
    FieldRoundTrip(n, 8 * k, bits, pos + Padding(pos));
  }

  lemma AlignedSplit(bits: seq<bool>, pos: nat, out: seq<bool>)
    requires Holds(bits, pos, Aligned(pos, out))
    ensures Holds(bits, pos + Padding(pos), out) && |Aligned(pos, out)| == Padding(pos) + |out|
  {
    HoldsSplit(bits, pos, Falses(Padding(pos)), out);
  }

  lemma SkipRoundTrip(size: nat, bits: seq<bool>, pos: nat)
    requires Holds(bits, pos, Emit(Skip(size), Tuple([]), pos).value)
    ensures Parse(Skip(size), bits, pos) ==
            Done(Tuple([]), pos + |Emit(Skip(size), Tuple([]), pos).value|)
  {
    hide Unpack;
    AlignedSplit(bits, pos, Unpack(seq(size, _ => 0)));
  }

  lemma BytesRoundTrip(bytes: seq<Byte>, bits: seq<bool>, pos: nat)
    requires Holds(bits, pos, Aligned(pos, Unpack(bytes)))
    ensures ParseBytes(|bytes|, bits, pos) == Done(Blob(bytes), pos + |Aligned(pos, Unpack(bytes))|)
  {
    hide Padding, Aligned, Pack, Unpack;
    AlignedSplit(bits, pos, Unpack(bytes));
    PackUnpack(bytes);
  }

  lemma TextRoundTrip(room: TextRoom, bytes: seq<Byte>, bits: seq<bool>, pos: nat)
    requires |bytes| + 1 <= room && InWord(|bytes| + 1, 4)
    requires Holds(bits, pos, Emit(Text(room), Blob(bytes), pos).value)
    ensures Parse(Text(room), bits, pos) == Done(Blob(bytes), pos + |Emit(Text(room), Blob(bytes), pos).value|)
  {
    hide Bits, Number, Padding, Pow2, Pack, Unpack;
    var len := EmitNum(UInt(4), |bytes| + 1, pos).value;
    HoldsSplit(bits, pos, len, Aligned(pos + |len|, Unpack(bytes + [NUL])));
    NumRoundTrip(UInt(4), |bytes| + 1, bits, pos);
    BytesRoundTrip(bytes + [NUL], bits, pos + |len|);
    assert (bytes + [NUL])[..|bytes|] == bytes;
  }

  lemma MaskedRoundTrip(limit: nat, n: nat, v: Value, bits: seq<bool>, pos: nat)
    requires Canonical(MaskedFlags(limit, n), v) && Emit(MaskedFlags(limit, n), v, pos).Some?
    requires Holds(bits, pos, Emit(MaskedFlags(limit, n), v, pos).value)
    ensures Parse(MaskedFlags(limit, n), bits, pos) == Done(v, pos + |Emit(MaskedFlags(limit, n), v, pos).value|)
  {
    var count := EmitNum(Bounded(0, limit), v.vs[0].n, pos).value;
    var live := Live(v.vs[1].vs, v.vs[0].n);
    HoldsSplit(bits, pos, count, live);
    CountRoundTrip(limit, v.vs[0].n, bits, pos);
    var p := pos + |count|;
    forall i | 0 <= i < n
      ensures Flags(bits[p..p + n])[i] == v.vs[1].vs[i]
    {
      assert v.vs[1].vs[i] in v.vs[1].vs;
      assert bits[p..p + n][i] == live[i];
    }
    assert Flags(bits[p..p + n]) == v.vs[1].vs;
    assert v == Tuple([v.vs[0], Tuple(v.vs[1].vs)]);
  }

  /**
   * Round trip: wherever the emitted bits stand in a stream, parsing from their start returns
   * the value and stops exactly at their end.
   */
  lemma {:induction false} RoundTrip(s: Schema, v: Value, bits: seq<bool>, pos: nat)
    requires Emit(s, v, pos).Some? && Canonical(s, v)
    requires Holds(bits, pos, Emit(s, v, pos).value)
    ensures Parse(s, bits, pos) == Done(v, pos + |Emit(s, v, pos).value|)
    decreases s, 0
  {
    hide EmitNum, ParseNum, ParseBytes, Aligned, Live, Flags;
    match s
    case Flag => assert bits[pos] == bits[pos..pos + 1][0];
    case Raw(_) => BytesRoundTrip(v.bytes, bits, pos);
    case Skip(size) => SkipRoundTrip(size, bits, pos);
    case Text(room) => TextRoundTrip(room, v.bytes, bits, pos);
    case Struct(fields) => AllRoundTrip(fields, v.vs, bits, pos);
    case Counted(limit, elem) => CountedRoundTrip(limit, elem, v.vs, bits, pos);
    case Gated(body) =>
      if v.vs == [] {
        assert bits[pos] == bits[pos..pos + 1][0];
      } else {
        HoldsSplit(bits, pos, [true], Emit(body, v.vs[0], pos + 1).value);
        RoundTrip(body, v.vs[0], bits, pos + 1);
        assert bits[pos] == bits[pos..pos + 1][0];
        assert v == Tuple([v.vs[0]]);
      }
    case MaskedFlags(limit, n) => MaskedRoundTrip(limit, n, v, bits, pos);
    case _ => NumRoundTrip(s, v.n, bits, pos);
  }

  lemma {:induction false} CountedRoundTrip(limit: nat, elem: Schema, vs: seq<Value>, bits: seq<bool>, pos: nat)
    requires Emit(Counted(limit, elem), Tuple(vs), pos).Some? && forall x :: x in vs ==> Canonical(elem, x)
    requires Holds(bits, pos, Emit(Counted(limit, elem), Tuple(vs), pos).value)
    ensures Parse(Counted(limit, elem), bits, pos) ==
            Done(Tuple(vs), pos + |Emit(Counted(limit, elem), Tuple(vs), pos).value|)
    decreases elem, 2 + |vs|
  {
    hide EmitNum, ParseNum, EmitEach, ParseEach, Canonical;
    var count := EmitNum(Bounded(0, limit), |vs|, pos).value;
    HoldsSplit(bits, pos, count, EmitEach(elem, vs, pos + |count|).value);
    CountRoundTrip(limit, |vs|, bits, pos);
    EachRoundTrip(elem, vs, bits, pos + |count|);
  }

  lemma CountRoundTrip(limit: nat, n: int, bits: seq<bool>, pos: nat)
    requires EmitNum(Bounded(0, limit), n, pos).Some?
    requires Holds(bits, pos, EmitNum(Bounded(0, limit), n, pos).value)
    ensures ParseNum(Bounded(0, limit), bits, pos) == Done(Num(n), pos + |EmitNum(Bounded(0, limit), n, pos).value|)
  {
    NumRoundTrip(Bounded(0, limit), n, bits, pos);
  }

  lemma {:induction false} AllRoundTrip(fields: seq<Schema>, vs: seq<Value>, bits: seq<bool>, pos: nat)
    requires EmitAll(fields, vs, pos).Some? && AllCanonical(fields, vs)
    requires Holds(bits, pos, EmitAll(fields, vs, pos).value)
    ensures ParseAll(fields, bits, pos) == Done(Tuple(vs), pos + |EmitAll(fields, vs, pos).value|)
    decreases fields, 0
  {
    hide Emit, Parse, Canonical;
    if fields != [] {
      var first := Emit(fields[0], vs[0], pos).value;
      HoldsSplit(bits, pos, first, EmitAll(fields[1..], vs[1..], pos + |first|).value);
      RoundTrip(fields[0], vs[0], bits, pos);
      AllRoundTrip(fields[1..], vs[1..], bits, pos + |first|);
      assert [vs[0]] + vs[1..] == vs;
    }
  }

  lemma {:induction false} EachRoundTrip(elem: Schema, vs: seq<Value>, bits: seq<bool>, pos: nat)
    requires EmitEach(elem, vs, pos).Some? && forall x :: x in vs ==> Canonical(elem, x)
    requires Holds(bits, pos, EmitEach(elem, vs, pos).value)
    ensures ParseEach(elem, |vs|, bits, pos) == Done(Tuple(vs), pos + |EmitEach(elem, vs, pos).value|)
    decreases elem, 1 + |vs|
  {
    hide Emit, Parse, Canonical, Holds;
    if vs != [] {
      var first := Emit(elem, vs[0], pos).value;
      var rest := EmitEach(elem, vs[1..], pos + |first|).value;
      assert EmitEach(elem, vs, pos).value == first + rest;
      HoldsSplit(bits, pos, first, rest);
      RoundTrip(elem, vs[0], bits, pos);
      EachRoundTrip(elem, vs[1..], bits, pos + |first|);
      assert [vs[0]] + vs[1..] == vs;
    }
  }

  // ----- Nothing else survives -----

  lemma OnlyNumComesBack(s: Schema, n: int, bits: seq<bool>, pos: nat)
    requires ParseNum(s, bits, pos).Done? && ParseNum(s, bits, pos).value == Num(n)
    ensures Canonical(s, Num(n))
  {
    hide Width, Padding, Number;
    match s
    case BitField(count) => assert |bits[pos..pos + count]| == count;
    case UInt(k) =>
      var p := pos + Padding(pos);
      assert |bits[p..p + 8 * k]| == 8 * k;
    case _ =>
  }

  lemma OnlyTextComesBack(room: TextRoom, bytes: seq<Byte>, bits: seq<bool>, pos: nat)
    requires Parse(Text(room), bits, pos).Done? && Parse(Text(room), bits, pos).value == Blob(bytes)
    ensures Canonical(Text(room), Blob(bytes))
  {
    hide Number, Padding, Pow2, Pack, Unpack;
    OnlyNumComesBack(UInt(4), ParseNum(UInt(4), bits, pos).value.n, bits, pos);
  }

  lemma OnlyMaskedComesBack(limit: nat, n: nat, v: Value, bits: seq<bool>, pos: nat)
    requires Emit(MaskedFlags(limit, n), v, pos).Some?
    requires Holds(bits, pos, Emit(MaskedFlags(limit, n), v, pos).value)
    requires Parse(MaskedFlags(limit, n), bits, pos).Done? && Parse(MaskedFlags(limit, n), bits, pos).value == v
    ensures Canonical(MaskedFlags(limit, n), v)
  {
    var count := EmitNum(Bounded(0, limit), v.vs[0].n, pos).value;
    var live := Live(v.vs[1].vs, v.vs[0].n);
    HoldsSplit(bits, pos, count, live);
    CountRoundTrip(limit, v.vs[0].n, bits, pos);
    var p := pos + |count|;
    forall i | 0 <= i < n && i >= v.vs[0].n
      ensures !v.vs[1].vs[i].b
    {
      assert v.vs[1].vs == Flags(bits[p..p + n]);
      assert bits[p..p + n][i] == live[i];
    }
  }

  /** A value that comes back from its own bits is canonical, wherever the reader then stands. */
  lemma {:induction false} OnlyCanonicalComesBack(s: Schema, v: Value, bits: seq<bool>, pos: nat)
    requires Emit(s, v, pos).Some? && Holds(bits, pos, Emit(s, v, pos).value)
    requires Parse(s, bits, pos).Done? && Parse(s, bits, pos).value == v
    ensures Canonical(s, v)
    decreases s, 0
  {
    hide EmitNum, ParseNum, ParseBytes, Aligned, Live, Flags;
    match s
    case Flag =>
    case Raw(_) =>
    case Skip(_) =>
    case Text(room) => OnlyTextComesBack(room, v.bytes, bits, pos);
    case Struct(fields) => OnlyAllCanonical(fields, v.vs, bits, pos);
    case Counted(limit, elem) =>
      var count := EmitNum(Bounded(0, limit), |v.vs|, pos).value;
      HoldsSplit(bits, pos, count, EmitEach(elem, v.vs, pos + |count|).value);
      CountRoundTrip(limit, |v.vs|, bits, pos);
      OnlyEachCanonical(elem, v.vs, bits, pos + |count|);
    case Gated(body) =>
      if v.vs != [] {
        HoldsSplit(bits, pos, [true], Emit(body, v.vs[0], pos + 1).value);
        assert bits[pos] == bits[pos..pos + 1][0];
        OnlyCanonicalComesBack(body, v.vs[0], bits, pos + 1);
      }
    case MaskedFlags(limit, n) => OnlyMaskedComesBack(limit, n, v, bits, pos);
    case _ => OnlyNumComesBack(s, v.n, bits, pos);
  }

  lemma {:induction false} OnlyAllCanonical(fields: seq<Schema>, vs: seq<Value>, bits: seq<bool>, pos: nat)
    requires EmitAll(fields, vs, pos).Some? && Holds(bits, pos, EmitAll(fields, vs, pos).value)
    requires ParseAll(fields, bits, pos).Done? && ParseAll(fields, bits, pos).value == Tuple(vs)
    ensures AllCanonical(fields, vs)
    decreases fields, 0
  {
    hide Emit, Parse, Canonical;
    if fields != [] {
      var first := Emit(fields[0], vs[0], pos).value;
      HoldsSplit(bits, pos, first, EmitAll(fields[1..], vs[1..], pos + |first|).value);
      var v, p := Parse(fields[0], bits, pos).value, Parse(fields[0], bits, pos).pos;
      var rest := ParseAll(fields[1..], bits, p);
      assert vs == [v] + rest.value.vs;
      assert rest.value.vs == vs[1..];
      OnlyCanonicalComesBack(fields[0], vs[0], bits, pos);
      RoundTrip(fields[0], vs[0], bits, pos);
      OnlyAllCanonical(fields[1..], vs[1..], bits, pos + |first|);
    }
  }

  lemma {:induction false} OnlyEachCanonical(elem: Schema, vs: seq<Value>, bits: seq<bool>, pos: nat)
    requires EmitEach(elem, vs, pos).Some? && Holds(bits, pos, EmitEach(elem, vs, pos).value)
    requires ParseEach(elem, |vs|, bits, pos).Done? && ParseEach(elem, |vs|, bits, pos).value == Tuple(vs)
    ensures forall x :: x in vs ==> Canonical(elem, x)
    decreases elem, 1 + |vs|
  {
    hide Emit, Parse, Canonical;
    if vs != [] {
      var first := Emit(elem, vs[0], pos).value;
      HoldsSplit(bits, pos, first, EmitEach(elem, vs[1..], pos + |first|).value);
      var v, p := Parse(elem, bits, pos).value, Parse(elem, bits, pos).pos;
      var rest := ParseEach(elem, |vs| - 1, bits, p);
      assert vs == [v] + rest.value.vs;
      assert rest.value.vs == vs[1..];
      OnlyCanonicalComesBack(elem, vs[0], bits, pos);
      RoundTrip(elem, vs[0], bits, pos);
      OnlyEachCanonical(elem, vs[1..], bits, pos + |first|);
      assert forall x :: x in vs ==> x == vs[0] || x in vs[1..];
    }
  }

  /** Exactly the canonical values survive: whatever a writer accepts comes back unchanged iff it is one. */
  lemma SurvivesIffCanonical(s: Schema, v: Value, bits: seq<bool>, pos: nat)
    requires Emit(s, v, pos).Some? && Holds(bits, pos, Emit(s, v, pos).value)
    ensures Parse(s, bits, pos) == Done(v, pos + |Emit(s, v, pos).value|) <==> Canonical(s, v)
  {
    hide Emit, Parse, Canonical;
    if Canonical(s, v) {
      RoundTrip(s, v, bits, pos);
    } else if Parse(s, bits, pos) == Done(v, pos + |Emit(s, v, pos).value|) {
      OnlyCanonicalComesBack(s, v, bits, pos);
    }
  }

  // ----- Reading, then writing again -----

  /** The number a reader returns can be written, in as many bits. */
  lemma ParsedNumEmits(s: Schema, bits: seq<bool>, pos: nat)
    requires ParseNum(s, bits, pos).Done?
    ensures var p := ParseNum(s, bits, pos);
            && p.value.Num? && EmitNum(s, p.value.n, pos).Some?
            && p.pos == pos + |EmitNum(s, p.value.n, pos).value|
            && Canonical(s, p.value)
  {
    var p := ParseNum(s, bits, pos);
    OnlyNumComesBack(s, p.value.n, bits, pos);
    hide Number, Padding;
    match s
    case BitField(count) => NumberFits(bits[pos..pos + count], count);
    case Bounded(min, max) =>
    case Compressed(max) =>
    case UInt(k) => WordEmits(k, p.value.n, pos);
  }

  lemma NumberFits(bits: seq<bool>, count: nat)
    requires |bits| == count <= 32
    ensures Fits(Number(bits), count)
  {
    Pow2Monotone(count, 32);
    Pow2Of32();
  }

  lemma WordEmits(k: nat, n: nat, pos: nat)
    requires n < Pow2(8 * k)
    ensures EmitNum(UInt(k), n, pos).Some? && |EmitNum(UInt(k), n, pos).value| == Padding(pos) + 8 * k
  {}

  lemma ParsedBytesEmit(size: nat, bits: seq<bool>, pos: nat)
    requires ParseBytes(size, bits, pos).Done?
    ensures var p := ParseBytes(size, bits, pos);
            p.value.Blob? && |p.value.bytes| == size && p.pos == pos + |Aligned(pos, Unpack(p.value.bytes))|
  {
    hide Unpack, Pack;
  }

  lemma ParsedTextEmits(room: TextRoom, bits: seq<bool>, pos: nat)
    requires Parse(Text(room), bits, pos).Done?
    ensures var p := Parse(Text(room), bits, pos);
            Emit(Text(room), p.value, pos).Some? && p.pos == pos + |Emit(Text(room), p.value, pos).value|
            && Canonical(Text(room), p.value)
  {
    ParsedNumEmits(UInt(4), bits, pos);
    var len := ParseNum(UInt(4), bits, pos);
    ParsedBytesEmit(len.value.n, bits, len.pos);
    hide ParseNum, ParseBytes, EmitNum, Unpack, Padding, Pow2;
    var p := Parse(Text(room), bits, pos);
    var raw := ParseBytes(len.value.n, bits, len.pos).value.bytes;
    assert p.value.bytes + [NUL] == raw;
  }

  /** The flags at or past each count are unset: the one thing a reader lets through and a writer does not. */
  predicate NoStray(s: Schema, v: Value)
    decreases s, 0
  {
    match s
    case Struct(fields) => v.Tuple? && NoStrays(fields, v.vs)
    case Counted(_, elem) => v.Tuple? && forall x :: x in v.vs ==> NoStray(elem, x)
    case Gated(body) => v.Tuple? && forall x :: x in v.vs ==> NoStray(body, x)
    case MaskedFlags(_, n) => IsMasked(v, n) && forall i :: 0 <= i < n && i >= v.vs[0].n ==> !v.vs[1].vs[i].b
    case _ => true
  }

  predicate NoStrays(fields: seq<Schema>, vs: seq<Value>)
    decreases fields, 0
  {
    |fields| == |vs| && (fields != [] ==> NoStray(fields[0], vs[0]) && NoStrays(fields[1..], vs[1..]))
  }

  /**
   * A value that was read: it can be written again in as many bits, and only stray flags keep it from being
   * canonical.
   */
  predicate Rewritable(s: Schema, v: Value, pos: nat, end: nat) {
    && Emit(s, v, pos).Some? && end == pos + |Emit(s, v, pos).value|
    && (Canonical(s, v) <==> NoStray(s, v))
  }

  /** Whatever a reader returns can be written again, in as many bits as it was read from. */
  lemma {:induction false} ParsedIsRewritable(s: Schema, bits: seq<bool>, pos: nat)
    requires Parse(s, bits, pos).Done?
    ensures Rewritable(s, Parse(s, bits, pos).value, pos, Parse(s, bits, pos).pos)
    decreases s, 0
  {
    hide Parse, Rewritable;
    match s
    case Struct(fields) => ParsedStruct(fields, bits, pos);
    case Counted(limit, elem) => ParsedCounted(limit, elem, bits, pos);
    case Gated(body) => ParsedGated(body, bits, pos);
    case MaskedFlags(limit, n) => ParsedMasked(limit, n, bits, pos);
    case _ => ParsedLeaf(s, bits, pos);
  }

  lemma ParsedLeaf(s: Schema, bits: seq<bool>, pos: nat)
    requires !s.Struct? && !s.Counted? && !s.Gated? && !s.MaskedFlags? && Parse(s, bits, pos).Done?
    ensures Rewritable(s, Parse(s, bits, pos).value, pos, Parse(s, bits, pos).pos)
  {
    hide EmitNum, ParseNum, ParseBytes, Aligned, Unpack;
    match s
    case Flag =>
    case Raw(size) => ParsedBytesEmit(size, bits, pos);
    case Skip(size) => SkipEmits(size, pos);
    case Text(room) => ParsedTextEmits(room, bits, pos);
    case _ => ParsedNumEmits(s, bits, pos);
  }

  lemma {:induction false} ParsedStruct(fields: seq<Schema>, bits: seq<bool>, pos: nat)
    requires Parse(Struct(fields), bits, pos).Done?
    ensures var p := Parse(Struct(fields), bits, pos);
            Rewritable(Struct(fields), p.value, pos, p.pos)
    decreases fields, 1
  {
    hide ParseAll, EmitAll, AllCanonical, NoStrays;
    ParsedAllRewritable(fields, bits, pos);
  }

  lemma {:induction false} ParsedCounted(limit: nat, elem: Schema, bits: seq<bool>, pos: nat)
    requires Parse(Counted(limit, elem), bits, pos).Done?
    ensures var p := Parse(Counted(limit, elem), bits, pos);
            Rewritable(Counted(limit, elem), p.value, pos, p.pos)
    decreases elem, 2 + limit
  {
    hide EmitNum, ParseNum, ParseEach, EmitEach;
    ParsedNumEmits(Bounded(0, limit), bits, pos);
    var count := ParseNum(Bounded(0, limit), bits, pos);
    CountInRange(limit, bits, pos);
    ParsedEachRewritable(elem, count.value.n, bits, count.pos);
  }

  lemma {:induction false} ParsedGated(body: Schema, bits: seq<bool>, pos: nat)
    requires Parse(Gated(body), bits, pos).Done?
    ensures var p := Parse(Gated(body), bits, pos);
            Rewritable(Gated(body), p.value, pos, p.pos)
    decreases body, 1
  {
    if bits[pos] {
      ParsedIsRewritable(body, bits, pos + 1);
      var v := Parse(body, bits, pos + 1).value;
      assert forall x :: x in [v] <==> x == v;
    }
  }

  lemma ParsedMasked(limit: nat, n: nat, bits: seq<bool>, pos: nat)
    requires Parse(MaskedFlags(limit, n), bits, pos).Done?
    ensures var p := Parse(MaskedFlags(limit, n), bits, pos);
            Rewritable(MaskedFlags(limit, n), p.value, pos, p.pos)
  {
    hide EmitNum, ParseNum, Live, Flags;
    ParsedNumEmits(Bounded(0, limit), bits, pos);
    FlagsAreMasked(ParseNum(Bounded(0, limit), bits, pos), bits, n);
  }

  lemma SkipEmits(size: nat, pos: nat)
    ensures |Aligned(pos, Unpack(seq(size, _ => 0)))| == Padding(pos) + 8 * size
  {
    hide Unpack;
  }

  lemma CountInRange(limit: nat, bits: seq<bool>, pos: nat)
    requires ParseNum(Bounded(0, limit), bits, pos).Done?
    ensures 0 <= ParseNum(Bounded(0, limit), bits, pos).value.n <= limit
  {}

  lemma FlagsAreMasked(count: Parsed, bits: seq<bool>, n: nat)
    requires count.Done? && count.value.Num? && count.pos + n <= |bits|
    ensures IsMasked(Tuple([count.value, Tuple(Flags(bits[count.pos..count.pos + n]))]), n)
  {}

  lemma {:induction false} ParsedAllRewritable(fields: seq<Schema>, bits: seq<bool>, pos: nat)
    requires ParseAll(fields, bits, pos).Done?
    ensures var p := ParseAll(fields, bits, pos);
            && p.value.Tuple? && EmitAll(fields, p.value.vs, pos).Some?
            && p.pos == pos + |EmitAll(fields, p.value.vs, pos).value|
            && (AllCanonical(fields, p.value.vs) <==> NoStrays(fields, p.value.vs))
    decreases fields, 0
  {
    hide Emit, Parse, Canonical, NoStray;
    if fields != [] {
      ParsedIsRewritable(fields[0], bits, pos);
      var first := Parse(fields[0], bits, pos);
      ParsedAllRewritable(fields[1..], bits, first.pos);
      var rest := ParseAll(fields[1..], bits, first.pos).value.vs;
      assert ([first.value] + rest)[1..] == rest;
    }
  }

  lemma {:induction false} ParsedEachRewritable(elem: Schema, n: int, bits: seq<bool>, pos: nat)
    requires ParseEach(elem, n, bits, pos).Done? && n >= 0
    ensures var p := ParseEach(elem, n, bits, pos);
            && p.value.Tuple? && |p.value.vs| == n && EmitEach(elem, p.value.vs, pos).Some?
            && p.pos == pos + |EmitEach(elem, p.value.vs, pos).value|
            && ((forall x :: x in p.value.vs ==> Canonical(elem, x)) <==>
                (forall x :: x in p.value.vs ==> NoStray(elem, x)))
    decreases elem, 1 + n
  {
    hide Emit, Parse, Canonical, NoStray;
    if n > 0 {
      ParsedIsRewritable(elem, bits, pos);
      var first := Parse(elem, bits, pos);
      ParsedEachRewritable(elem, n - 1, bits, first.pos);
      var rest := ParseEach(elem, n - 1, bits, first.pos).value.vs;
      var all := [first.value] + rest;
      assert all[1..] == rest;
      assert forall x :: x in all <==> x == first.value || x in rest;
    }
  }

  /** A reader stays within the stream. */
  lemma {:induction false} ParsedWithin(s: Schema, bits: seq<bool>, pos: nat)
    requires Parse(s, bits, pos).Done? && pos <= |bits|
    ensures Parse(s, bits, pos).pos <= |bits|
    decreases s, 0
  {
    hide Number, Padding, Width, Pack, Flags;
    match s
    case Struct(fields) => ParsedAllWithin(fields, bits, pos);
    case Counted(limit, elem) =>
      var count := ParseNum(Bounded(0, limit), bits, pos);
      ParsedEachWithin(elem, count.value.n, bits, count.pos);
    case Gated(body) =>
      if bits[pos] {
        ParsedWithin(body, bits, pos + 1);
      }
    case _ =>
  }

  lemma {:induction false} ParsedAllWithin(fields: seq<Schema>, bits: seq<bool>, pos: nat)
    requires ParseAll(fields, bits, pos).Done? && pos <= |bits|
    ensures ParseAll(fields, bits, pos).pos <= |bits|
    decreases fields, 0
  {
    hide Parse;
    if fields != [] {
      ParsedWithin(fields[0], bits, pos);
      ParsedAllWithin(fields[1..], bits, Parse(fields[0], bits, pos).pos);
    }
  }

  lemma {:induction false} ParsedEachWithin(elem: Schema, n: int, bits: seq<bool>, pos: nat)
    requires ParseEach(elem, n, bits, pos).Done? && pos <= |bits|
    ensures ParseEach(elem, n, bits, pos).pos <= |bits|
    decreases elem, if n <= 0 then 1 else 1 + n
  {
    hide Parse;
    if n > 0 {
      ParsedWithin(elem, bits, pos);
      ParsedEachWithin(elem, n - 1, bits, Parse(elem, bits, pos).pos);
    }
  }

  /**
   * Reading, writing what was read, and reading again gives the same value and takes the same bits,
   * if and only if no flag at or past a count was set in the first place.
   */
  lemma RereadsIffNoStray(s: Schema, bits: seq<bool>, pos: nat, again: seq<bool>)
    requires Parse(s, bits, pos).Done?
    requires Emit(s, Parse(s, bits, pos).value, pos).Some? ==>
             Holds(again, pos, Emit(s, Parse(s, bits, pos).value, pos).value)
    ensures Parse(s, again, pos) == Parse(s, bits, pos) <==> NoStray(s, Parse(s, bits, pos).value)
  {
    hide Parse, Emit, Canonical, NoStray, Holds;
    ParsedIsRewritable(s, bits, pos);
    SurvivesIffCanonical(s, Parse(s, bits, pos).value, again, pos);
  }

  // ----- Whole buffers -----

  /**
   * Any sequence of writes (Struct fields) read back in the same shape from the finished buffer:
   * every value returns, the reader ends at the writer's position, and no byte remains.
   */
  lemma BufferRoundTrip(s: Schema, v: Value, bytes: seq<Byte>)
    requires Emit(s, v, 0).Some? && Canonical(s, v)
    requires Unpack(bytes) == Emit(s, v, 0).value + Falses(Padding(|Emit(s, v, 0).value|))
    ensures Parse(s, Unpack(bytes), 0) == Done(v, |Emit(s, v, 0).value|)
    ensures |bytes| == BytesFor(|Emit(s, v, 0).value|)
  {
    hide Emit, Parse, Canonical, Unpack;
    RoundTrip(s, v, Unpack(bytes), 0);
  }

  /** A bound on the bits a layout without counts can take, wherever it starts. */
  function MaxBits(s: Schema): nat {
    match s
    case BitField(count) => count
    case Flag => 1
    case Bounded(min, max) => if min < max then Width(max - min) else 0
    case Compressed(max) => if max >= 0 then Width(max) else 0
    case UInt(k) => 7 + 8 * k
    case Raw(size) => 7 + 8 * size
    case _ => 0
  }

  predicate FixedSize(s: Schema) {
    s.BitField? || s.Flag? || s.Bounded? || s.Compressed? || s.UInt? || s.Raw?
  }

  lemma EmitSize(s: Schema, v: Value, pos: nat)
    requires FixedSize(s) && Emit(s, v, pos).Some?
    ensures |Emit(s, v, pos).value| <= MaxBits(s)
  {
    hide Bits, Pow2, Unpack, Width;
  }

  /** The bound for the fields from the i-th on. */
  function MaxBitsFrom(fields: seq<Schema>, i: nat): nat
    requires i <= |fields|
    decreases |fields| - i
  {
    if i == |fields| then 0 else MaxBits(fields[i]) + MaxBitsFrom(fields, i + 1)
  }

  lemma {:induction false} EmitAllSize(fields: seq<Schema>, i: nat, vs: seq<Value>, pos: nat)
    requires i <= |fields| && forall s :: s in fields ==> FixedSize(s)
    requires EmitAll(fields[i..], vs, pos).Some?
    ensures |EmitAll(fields[i..], vs, pos).value| <= MaxBitsFrom(fields, i)
    decreases |fields| - i
  {
    hide Emit, MaxBits, FixedSize;
    if i < |fields| {
      var first := Emit(fields[i], vs[0], pos).value;
      assert fields[i..][1..] == fields[i + 1..];
      EmitSize(fields[i], vs[0], pos);
      EmitAllSize(fields, i + 1, vs[1..], pos + |first|);
    }
  }
}
