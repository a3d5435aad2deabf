/**
 * The texts inside a field tree. A reader makes strings of them, so what it returns is their
 * bytes respelled, which may be longer than what was read.
 */
module PlayerNames {
  import opened Octets
  import opened Options
  import opened BitStreams
  import opened Schemas
  import opened Utf8
  import W = BinaryWriters

  /** The tree with each text as the string it is read as. */
  function Spelled(s: Schema, v: Value): Value
    decreases s, 0
  {
    match s
    case Text(_) => if v.Blob? then Blob(Respelled(v.bytes)) else v
    case Struct(fields) => if v.Tuple? && |fields| == |v.vs| then Tuple(SpelledAll(fields, v.vs)) else v
    case Counted(_, elem) => if v.Tuple? then Tuple(SpelledEach(elem, v.vs)) else v
    case Gated(body) => if v.Tuple? then Tuple(SpelledEach(body, v.vs)) else v
    case _ => v
  }

  function SpelledAll(fields: seq<Schema>, vs: seq<Value>): (r: seq<Value>)
    requires |fields| == |vs|
    ensures |r| == |vs|
    decreases fields, 0
  {
    if fields == [] then [] else [Spelled(fields[0], vs[0])] + SpelledAll(fields[1..], vs[1..])
  }

  function SpelledEach(elem: Schema, vs: seq<Value>): (r: seq<Value>)
    ensures |r| == |vs|
    decreases elem, 1 + |vs|
  {
    if vs == [] then [] else [Spelled(elem, vs[0])] + SpelledEach(elem, vs[1..])
  }

  /** Each text that is valid UTF-8. */
  predicate TextsWellFormed(s: Schema, v: Value)
    decreases s, 0
  {
    match s
    case Text(_) => v.Blob? ==> WellFormed(v.bytes)
    case Struct(fields) => v.Tuple? && |fields| == |v.vs| ==> AllWellFormed(fields, v.vs)
    case Counted(_, elem) => v.Tuple? ==> forall x :: x in v.vs ==> TextsWellFormed(elem, x)
    case Gated(body) => v.Tuple? ==> forall x :: x in v.vs ==> TextsWellFormed(body, x)
    case _ => true
  }

  predicate AllWellFormed(fields: seq<Schema>, vs: seq<Value>)
    requires |fields| == |vs|
    decreases fields, 0
  {
    fields == [] || (TextsWellFormed(fields[0], vs[0]) && AllWellFormed(fields[1..], vs[1..]))
  }

  /** Each text as it is read, with its NUL, is no longer than its room. */
  predicate TextsFit(s: Schema, v: Value)
    decreases s, 0
  {
    match s
    case Text(room) => v.Blob? ==> |Respelled(v.bytes)| + 1 <= room
    case Struct(fields) => v.Tuple? && |fields| == |v.vs| ==> AllFit(fields, v.vs)
    case Counted(_, elem) => v.Tuple? ==> forall x :: x in v.vs ==> TextsFit(elem, x)
    case Gated(body) => v.Tuple? ==> forall x :: x in v.vs ==> TextsFit(body, x)
    case _ => true
  }

  predicate AllFit(fields: seq<Schema>, vs: seq<Value>)
    requires |fields| == |vs|
    decreases fields, 0
  {
    fields == [] || (TextsFit(fields[0], vs[0]) && AllFit(fields[1..], vs[1..]))
  }

  // ----- Spelling changes nothing else -----

  lemma EachSpelled(elem: Schema, vs: seq<Value>, i: nat)
    requires i < |vs|
    ensures SpelledEach(elem, vs)[i] == Spelled(elem, vs[i])
    decreases i
  {
    hide Spelled;
    if i > 0 {
      EachSpelled(elem, vs[1..], i - 1);
    }
  }

  /** A tree is as it would be read exactly when its texts are valid. */
  lemma {:induction false} SpelledIff(s: Schema, v: Value)
    ensures Spelled(s, v) == v <==> TextsWellFormed(s, v)
    decreases s, 0
  {
    hide Respelled, WellFormed;
    match s
    case Text(_) =>
      if v.Blob? {
        RespelledIff(v.bytes);
      }
    case Struct(fields) =>
      if v.Tuple? && |fields| == |v.vs| {
        SpelledAllIff(fields, v.vs);
      }
    case Counted(_, elem) =>
      if v.Tuple? {
        SpelledEachIff(elem, v.vs);
      }
    case Gated(body) =>
      if v.Tuple? {
        SpelledEachIff(body, v.vs);
      }
    case _ =>
  }

  lemma {:induction false} SpelledAllIff(fields: seq<Schema>, vs: seq<Value>)
    requires |fields| == |vs|
    ensures SpelledAll(fields, vs) == vs <==> AllWellFormed(fields, vs)
    decreases fields, 0
  {
    hide Spelled, TextsWellFormed;
    if fields != [] {
      SpelledIff(fields[0], vs[0]);
      SpelledAllIff(fields[1..], vs[1..]);
      assert SpelledAll(fields, vs)[1..] == SpelledAll(fields[1..], vs[1..]);
      assert vs == [vs[0]] + vs[1..];
    }
  }

  lemma {:induction false} SpelledEachIff(elem: Schema, vs: seq<Value>)
    ensures SpelledEach(elem, vs) == vs <==> forall x :: x in vs ==> TextsWellFormed(elem, x)
    decreases elem, 1 + |vs|
  {
    hide Spelled, TextsWellFormed;
    if vs != [] {
      SpelledIff(elem, vs[0]);
      SpelledEachIff(elem, vs[1..]);
      assert SpelledEach(elem, vs)[1..] == SpelledEach(elem, vs[1..]);
      assert vs == [vs[0]] + vs[1..];
    }
  }

  /** What has been read has valid texts. */
  lemma {:induction false} SpelledIsWellFormed(s: Schema, v: Value)
    ensures TextsWellFormed(s, Spelled(s, v))
    decreases s, 0
  {
    hide Respelled, WellFormed;
    match s
    case Text(_) =>
      if v.Blob? {
        RespelledIsWellFormed(v.bytes);
      }
    case Struct(fields) =>
      if v.Tuple? && |fields| == |v.vs| {
        SpelledAllWellFormed(fields, v.vs);
      }
    case Counted(_, elem) =>
      if v.Tuple? {
        SpelledEachWellFormed(elem, v.vs);
      }
    case Gated(body) =>
      if v.Tuple? {
        SpelledEachWellFormed(body, v.vs);
      }
    case _ =>
  }

  lemma {:induction false} SpelledAllWellFormed(fields: seq<Schema>, vs: seq<Value>)
    requires |fields| == |vs|
    ensures AllWellFormed(fields, SpelledAll(fields, vs))
    decreases fields, 0
  {
    hide Spelled, TextsWellFormed;
    if fields != [] {
      SpelledIsWellFormed(fields[0], vs[0]);
      SpelledAllWellFormed(fields[1..], vs[1..]);
      assert SpelledAll(fields, vs)[1..] == SpelledAll(fields[1..], vs[1..]);
    }
  }

  lemma {:induction false} SpelledEachWellFormed(elem: Schema, vs: seq<Value>)
    ensures forall x :: x in SpelledEach(elem, vs) ==> TextsWellFormed(elem, x)
    decreases elem, 1 + |vs|
  {
    hide Spelled, TextsWellFormed;
    if vs != [] {
      SpelledIsWellFormed(elem, vs[0]);
      SpelledEachWellFormed(elem, vs[1..]);
    }
  }

  /** Flags are as stray as before. */
  lemma {:induction false} SpelledStray(s: Schema, v: Value)
    ensures NoStray(s, Spelled(s, v)) <==> NoStray(s, v)
    decreases s, 0
  {
    hide Respelled;
    match s
    case Struct(fields) =>
      if v.Tuple? && |fields| == |v.vs| {
        SpelledAllStray(fields, v.vs);
      }
    case Counted(_, elem) =>
      if v.Tuple? {
        SpelledEachStray(elem, v.vs);
        assert Spelled(s, v).vs == SpelledEach(elem, v.vs);
      }
    case Gated(body) =>
      if v.Tuple? {
        SpelledEachStray(body, v.vs);
        assert Spelled(s, v).vs == SpelledEach(body, v.vs);
      }
    case _ =>
  }

  lemma {:induction false} SpelledAllStray(fields: seq<Schema>, vs: seq<Value>)
    requires |fields| == |vs|
    ensures NoStrays(fields, SpelledAll(fields, vs)) <==> NoStrays(fields, vs)
    decreases fields, 0
  {
    hide Spelled, NoStray;
    if fields != [] {
      SpelledStray(fields[0], vs[0]);
      SpelledAllStray(fields[1..], vs[1..]);
      assert SpelledAll(fields, vs)[1..] == SpelledAll(fields[1..], vs[1..]);
    }
  }

  lemma {:induction false} SpelledEachStray(elem: Schema, vs: seq<Value>)
    ensures (forall x :: x in SpelledEach(elem, vs) ==> NoStray(elem, x)) <==>
            (forall x :: x in vs ==> NoStray(elem, x))
    decreases elem, 1 + |vs|
  {
    hide Spelled, NoStray;
    if vs != [] {
      SpelledStray(elem, vs[0]);
      SpelledEachStray(elem, vs[1..]);
      assert SpelledEach(elem, vs) == [Spelled(elem, vs[0])] + SpelledEach(elem, vs[1..]);
      assert vs == [vs[0]] + vs[1..];
    }
  }

  /** Integers keep their widths. */
  lemma {:induction false} SpelledCanonical(s: Schema, v: Value)
    requires Canonical(s, v) && TextsFit(s, v)
    ensures Canonical(s, Spelled(s, v))
    decreases s, 0
  {
    hide Respelled, Pow2;
    match s
    case Text(room) =>
      assert Pow2(32) == 0x1_0000_0000 by { W.Pow2Of32(); }
    case Struct(fields) =>
      CanonicalLength(fields, v.vs);
      SpelledAllCanonical(fields, v.vs);
    case Counted(_, elem) => SpelledEachCanonical(elem, v.vs);
    case Gated(body) => SpelledEachCanonical(body, v.vs);
    case _ =>
  }

  lemma CanonicalLength(fields: seq<Schema>, vs: seq<Value>)
    requires AllCanonical(fields, vs)
    ensures |fields| == |vs|
  {}

  lemma {:induction false} SpelledAllCanonical(fields: seq<Schema>, vs: seq<Value>)
    requires |fields| == |vs| && AllCanonical(fields, vs) && AllFit(fields, vs)
    ensures AllCanonical(fields, SpelledAll(fields, vs))
    decreases fields, 0
  {
    hide Spelled, Canonical, TextsFit;
    if fields != [] {
      SpelledCanonical(fields[0], vs[0]);
      SpelledAllCanonical(fields[1..], vs[1..]);
      assert SpelledAll(fields, vs)[1..] == SpelledAll(fields[1..], vs[1..]);
    }
  }

  lemma {:induction false} SpelledEachCanonical(elem: Schema, vs: seq<Value>)
    requires forall x :: x in vs ==> Canonical(elem, x) && TextsFit(elem, x)
    ensures forall x :: x in SpelledEach(elem, vs) ==> Canonical(elem, x)
    decreases elem, 1 + |vs|
  {
    hide Spelled, Canonical, TextsFit;
    if vs != [] {
      SpelledCanonical(elem, vs[0]);
      SpelledEachCanonical(elem, vs[1..]);
    }
  }

  // ----- When it can be written -----

  lemma TextLength(n: nat, q: nat)
    ensures EmitNum(UInt(4), n, q).Some?
  {}

  /** A tree that could be written where it was read can be written as it is read exactly when its texts fit. */
  lemma {:induction false} SpelledEmitsIff(s: Schema, v: Value, p: nat, q: nat)
    requires Emit(s, v, p).Some?
    ensures Emit(s, Spelled(s, v), q).Some? <==> TextsFit(s, v)
    decreases s, 0
  {
    hide Respelled, Unpack, Padding, Bits, Width, EmitNum, Aligned, Live;
    match s
    case Text(_) =>
      TextLength(|v.bytes| + 1, q);
      TextLength(|Respelled(v.bytes)| + 1, q);
    case MaskedFlags(limit, _) => NumAnywhere(Bounded(0, limit), v.vs[0].n, p, q);
    case BitField(_) | Bounded(_, _) | Compressed(_) | UInt(_) => NumAnywhere(s, v.n, p, q);
    case Struct(fields) => SpelledAllEmits(fields, v.vs, p, q);
    case Counted(limit, elem) =>
      NumAnywhere(Bounded(0, limit), |v.vs|, p, q);
      var count := EmitNum(Bounded(0, limit), |v.vs|, p).value;
      SpelledEachEmits(elem, v.vs, p + |count|, q + |count|);
    case Gated(body) =>
      if v.vs != [] {
        SpelledEmitsIff(body, v.vs[0], p + 1, q + 1);
        assert SpelledEach(body, v.vs) == [Spelled(body, v.vs[0])];
      }
    case _ =>
  }

  lemma {:induction false} SpelledAllEmits(fields: seq<Schema>, vs: seq<Value>, p: nat, q: nat)
    requires EmitAll(fields, vs, p).Some?
    ensures |fields| == |vs| && (EmitAll(fields, SpelledAll(fields, vs), q).Some? <==> AllFit(fields, vs))
    decreases fields, 0
  {
    hide Spelled, TextsFit, Emit;
    if fields != [] {
      var first := Emit(fields[0], vs[0], p).value;
      SpelledEmitsIff(fields[0], vs[0], p, q);
      var spelled := Emit(fields[0], Spelled(fields[0], vs[0]), q);
      SpelledAllEmits(fields[1..], vs[1..], p + |first|, if spelled.Some? then q + |spelled.value| else q);
      assert SpelledAll(fields, vs)[1..] == SpelledAll(fields[1..], vs[1..]);
    }
  }

  lemma {:induction false} SpelledEachEmits(elem: Schema, vs: seq<Value>, p: nat, q: nat)
    requires EmitEach(elem, vs, p).Some?
    ensures EmitEach(elem, SpelledEach(elem, vs), q).Some? <==> forall x :: x in vs ==> TextsFit(elem, x)
    decreases elem, 1 + |vs|
  {
    hide Spelled, TextsFit, Emit;
    if vs != [] {
      var first := Emit(elem, vs[0], p).value;
      SpelledEmitsIff(elem, vs[0], p, q);
      var spelled := Emit(elem, Spelled(elem, vs[0]), q);
      SpelledEachEmits(elem, vs[1..], p + |first|, if spelled.Some? then q + |spelled.value| else q);
      assert SpelledEach(elem, vs)[1..] == SpelledEach(elem, vs[1..]);
      assert vs == [vs[0]] + vs[1..];
    }
  }

  lemma NumAnywhere(s: Schema, n: int, p: nat, q: nat)
    requires EmitNum(s, n, p).Some?
    ensures EmitNum(s, n, q).Some? && (s.Bounded? ==> EmitNum(s, n, q) == EmitNum(s, n, p))
  {
    hide Bits, Width, Pow2;
  }

  /** Whether a tree can be written does not depend on where. */
  lemma {:induction false} EmitsAnywhere(s: Schema, v: Value, p: nat, q: nat)
    requires Emit(s, v, p).Some?
    ensures Emit(s, v, q).Some?
    decreases s, 0
  {
    hide Unpack, Padding, Bits, Width, EmitNum, Aligned, Live;
    match s
    case Text(_) => NumAnywhere(UInt(4), |v.bytes| + 1, p, q);
    case MaskedFlags(limit, _) => NumAnywhere(Bounded(0, limit), v.vs[0].n, p, q);
    case BitField(_) | Bounded(_, _) | Compressed(_) | UInt(_) => NumAnywhere(s, v.n, p, q);
    case Struct(fields) => AllEmitAnywhere(fields, v.vs, p, q);
    case Counted(limit, elem) =>
      NumAnywhere(Bounded(0, limit), |v.vs|, p, q);
      var count := EmitNum(Bounded(0, limit), |v.vs|, p).value;
      EachEmitAnywhere(elem, v.vs, p + |count|, q + |count|);
    case Gated(body) =>
      if v.vs != [] {
        EmitsAnywhere(body, v.vs[0], p + 1, q + 1);
      }
    case _ =>
  }

  lemma {:induction false} AllEmitAnywhere(fields: seq<Schema>, vs: seq<Value>, p: nat, q: nat)
    requires EmitAll(fields, vs, p).Some?
    ensures EmitAll(fields, vs, q).Some?
    decreases fields, 0
  {
    hide Emit;
    if fields != [] {
      EmitsAnywhere(fields[0], vs[0], p, q);
      var first, second := Emit(fields[0], vs[0], p).value, Emit(fields[0], vs[0], q).value;
      AllEmitAnywhere(fields[1..], vs[1..], p + |first|, q + |second|);
    }
  }

  lemma {:induction false} EachEmitAnywhere(elem: Schema, vs: seq<Value>, p: nat, q: nat)
    requires EmitEach(elem, vs, p).Some?
    ensures EmitEach(elem, vs, q).Some?
    decreases elem, 1 + |vs|
  {
    hide Emit;
    if vs != [] {
      EmitsAnywhere(elem, vs[0], p, q);
      var first, second := Emit(elem, vs[0], p).value, Emit(elem, vs[0], q).value;
      EachEmitAnywhere(elem, vs[1..], p + |first|, q + |second|);
    }
  }

  // ----- What is read of what was written -----

  /** A value read where v was written, from pos to end: no stray flags, and valid texts if v's were. */
  predicate ReadBack(s: Schema, v: Value, p: Parsed, end: nat) {
    p.Done? && p.pos == end && NoStray(s, p.value) && (TextsWellFormed(s, v) ==> TextsWellFormed(s, p.value))
  }

  lemma WrittenNum(s: Schema, n: int, bits: seq<bool>, pos: nat)
    requires EmitNum(s, n, pos).Some? && Holds(bits, pos, EmitNum(s, n, pos).value)
    ensures ParseNum(s, bits, pos).Done? && ParseNum(s, bits, pos).pos == pos + |EmitNum(s, n, pos).value|
  {
    hide Bits, Number, Width, Padding, Pow2;
    match s
    case BitField(_) =>
    case UInt(k) =>
      var m := n % Pow2(8 * k);
      RemainderFits(n, Pow2(8 * k));
      assert EmitNum(s, m, pos) == EmitNum(s, n, pos) by { SmallRemainder(m, Pow2(8 * k)); }
      NumRoundTrip(s, m, bits, pos);
    case _ => NumRoundTrip(s, n, bits, pos);
  }

  lemma RemainderFits(n: int, m: nat)
    requires m > 0
    ensures 0 <= n % m < m
  {}

  lemma SmallRemainder(n: nat, m: nat)
    requires n < m
    ensures n % m == n
  {}

  /** Reading a layout without lists where a value of it was written. */
  lemma WrittenLeaf(s: Schema, v: Value, bits: seq<bool>, pos: nat)
    requires !s.Struct? && !s.Counted? && !s.Gated? && !s.MaskedFlags?
    requires Emit(s, v, pos).Some? && Holds(bits, pos, Emit(s, v, pos).value)
    ensures ReadBack(s, v, Parse(s, bits, pos), pos + |Emit(s, v, pos).value|)
  {
    hide EmitNum, ParseNum, ParseBytes, Aligned, WellFormed, Pow2;
    match s
    case Flag => assert bits[pos] == bits[pos..pos + 1][0];
    case Raw(size) => BytesRoundTrip(v.bytes, bits, pos);
    case Skip(size) => SkipRoundTrip(size, bits, pos);
    case Text(room) =>
      assert Pow2(32) == 0x1_0000_0000 by { W.Pow2Of32(); }
      TextRoundTrip(room, v.bytes, bits, pos);
    case BitField(_) | Bounded(_, _) | Compressed(_) | UInt(_) => WrittenNum(s, v.n, bits, pos);
  }

  lemma WrittenMasked(limit: nat, n: nat, v: Value, bits: seq<bool>, pos: nat)
    requires Emit(MaskedFlags(limit, n), v, pos).Some?
    requires Holds(bits, pos, Emit(MaskedFlags(limit, n), v, pos).value)
    ensures var s := MaskedFlags(limit, n);
            ReadBack(s, v, Parse(s, bits, pos), pos + |Emit(s, v, pos).value|)
  {
    var count := EmitNum(Bounded(0, limit), v.vs[0].n, pos).value;
    var live := Live(v.vs[1].vs, v.vs[0].n);
    HoldsSplit(bits, pos, count, live);
    CountRoundTrip(limit, v.vs[0].n, bits, pos);
    var p := pos + |count|;
    FlagsAreMasked(Done(v.vs[0], p), bits, n);
    var flags := Flags(bits[p..p + n]);
    forall i | 0 <= i < n && i >= v.vs[0].n
      ensures !flags[i].b
    {
      assert bits[p..p + n][i] == live[i];
    }
  }

  lemma {:induction false} WrittenReads(s: Schema, v: Value, bits: seq<bool>, pos: nat)
    requires Emit(s, v, pos).Some? && Holds(bits, pos, Emit(s, v, pos).value)
    ensures ReadBack(s, v, Parse(s, bits, pos), pos + |Emit(s, v, pos).value|)
    decreases s, 0
  {
    hide EmitNum, ParseNum, ParseBytes, Aligned, Live, Flags;
    match s
    case Struct(fields) => WrittenAll(fields, v.vs, bits, pos);
    case Counted(limit, elem) =>
      var count := EmitNum(Bounded(0, limit), |v.vs|, pos).value;
      HoldsSplit(bits, pos, count, EmitEach(elem, v.vs, pos + |count|).value);
      CountRoundTrip(limit, |v.vs|, bits, pos);
      WrittenEach(elem, v.vs, bits, pos + |count|);
    case Gated(body) =>
      if v.vs == [] {
        assert bits[pos] == bits[pos..pos + 1][0];
      } else {
        HoldsSplit(bits, pos, [true], Emit(body, v.vs[0], pos + 1).value);
        assert bits[pos] == bits[pos..pos + 1][0];
        WrittenReads(body, v.vs[0], bits, pos + 1);
        assert v.vs == [v.vs[0]];
      }
    case MaskedFlags(limit, n) => WrittenMasked(limit, n, v, bits, pos);
    case _ => WrittenLeaf(s, v, bits, pos);
  }

  lemma {:induction false} WrittenAll(fields: seq<Schema>, vs: seq<Value>, bits: seq<bool>, pos: nat)
    requires EmitAll(fields, vs, pos).Some? && Holds(bits, pos, EmitAll(fields, vs, pos).value)
    ensures var p := ParseAll(fields, bits, pos);
            && |fields| == |vs| && p.Done? && p.value.Tuple? && |p.value.vs| == |vs|
            && p.pos == pos + |EmitAll(fields, vs, pos).value|
            && NoStrays(fields, p.value.vs) && (AllWellFormed(fields, vs) ==> AllWellFormed(fields, p.value.vs))
    decreases fields, 0
  {
    hide Emit, Parse, NoStray, TextsWellFormed;
    if fields != [] {
      var first := Emit(fields[0], vs[0], pos).value;
      HoldsSplit(bits, pos, first, EmitAll(fields[1..], vs[1..], pos + |first|).value);
      WrittenReads(fields[0], vs[0], bits, pos);
      WrittenAll(fields[1..], vs[1..], bits, pos + |first|);
      var p := ParseAll(fields, bits, pos);
      assert p.value.vs[1..] == ParseAll(fields[1..], bits, pos + |first|).value.vs;
    }
  }

  lemma {:induction false} WrittenEach(elem: Schema, vs: seq<Value>, bits: seq<bool>, pos: nat)
    requires EmitEach(elem, vs, pos).Some? && Holds(bits, pos, EmitEach(elem, vs, pos).value)
    ensures var p := ParseEach(elem, |vs|, bits, pos);
            && p.Done? && p.value.Tuple? && p.pos == pos + |EmitEach(elem, vs, pos).value|
            && (forall x :: x in p.value.vs ==> NoStray(elem, x))
            && ((forall x :: x in vs ==> TextsWellFormed(elem, x)) ==>
                  forall x :: x in p.value.vs ==> TextsWellFormed(elem, x))
    decreases elem, 1 + |vs|
  {
    hide Emit, Parse, NoStray, TextsWellFormed, Holds;
    if vs != [] {
      var first := Emit(elem, vs[0], pos).value;
      var rest := EmitEach(elem, vs[1..], pos + |first|).value;
      assert EmitEach(elem, vs, pos).value == first + rest;
      HoldsSplit(bits, pos, first, rest);
      WrittenReads(elem, vs[0], bits, pos);
      WrittenEach(elem, vs[1..], bits, pos + |first|);
      var p := ParseEach(elem, |vs|, bits, pos);
      assert p.value.vs == [Parse(elem, bits, pos).value] + ParseEach(elem, |vs| - 1, bits, pos + |first|).value.vs;
      assert forall x :: x in vs[1..] ==> x in vs;
    }
  }
}
