/** A decoded player state written again: decodePlayerState, then encodePlayerState without the raw bytes. */
module PlayerStateRewrites {
  import opened Octets
  import opened Options
  import opened BitStreams
  import opened Schemas
  import opened SnapshotLimits
  import opened PlayerRanges
  import opened PlayerStates
  import opened PlayerNames
  import opened Utf8
  import opened PlayerStateCodec

  // ----- Rows as a reader returns them -----

  predicate IsFlagPair(v: Value) {
    v.Tuple? && |v.vs| == 2 && v.vs[0].Flg? && v.vs[1].Flg?
  }

  predicate IsValuePair(v: Value) {
    v.Tuple? && |v.vs| == 2 && v.vs[0].Num? && v.vs[1].Num?
  }

  predicate IsAttachment(v: Value) {
    v.Tuple? && |v.vs| == 5 && v.vs[0].Flg? && v.vs[1].Flg? && v.vs[2].Num? && v.vs[3].Num? && v.vs[4].Num?
  }

  predicate ShapedA(c: ColumnsA) {
    && (forall v :: v in c.actives ==> v.Flg?) && (forall v :: v in c.kinds ==> v.Flg?)
    && (forall v :: v in c.flags ==> IsFlagPair(v)) && (forall v :: v in c.attachments ==> IsAttachment(v))
    && (forall v :: v in c.values ==> IsValuePair(v))
    && CountTrue(c.actives) == |c.kinds| == |c.flags| == |c.values| && CountTrue(c.kinds) == |c.attachments|
  }

  predicate ShapedB(c: ColumnsB) {
    && (forall v :: v in c.actives ==> v.Flg?) && (forall v :: v in c.flags ==> v.Flg?)
    && CountTrue(c.actives) == |c.flags|
  }

  lemma RowsRebuild(v: Value)
    ensures IsFlagPair(v) ==> Tuple([Flg(FlagAt(v, 0)), Flg(FlagAt(v, 1))]) == v
    ensures IsValuePair(v) ==> Tuple([Num(NumAt(v, 0)), Num(NumAt(v, 1))]) == v
    ensures IsAttachment(v) ==> FromAttachment(ToAttachment(v)) == v
  {
    if IsFlagPair(v) || IsValuePair(v) {
      assert v.vs == [v.vs[0], v.vs[1]];
    }
    if IsAttachment(v) {
      assert v.vs == [v.vs[0], v.vs[1], v.vs[2], v.vs[3], v.vs[4]];
    }
  }

  /** The columns without the first slot. */
  function DropA(c: ColumnsA): ColumnsA
    requires ShapedA(c) && c.actives != []
  {
    if !IsTrue(c.actives[0]) then c.(actives := c.actives[1..])
    else
      ColumnsA(c.actives[1..], c.kinds[1..], c.flags[1..],
               if IsTrue(c.kinds[0]) then c.attachments[1..] else c.attachments, c.values[1..])
  }

  lemma DropKeepsShape(c: ColumnsA)
    requires ShapedA(c) && c.actives != []
    ensures ShapedA(DropA(c)) && |DropA(c).actives| == |c.actives| - 1
  {
    var d := DropA(c);
    assert c.actives == [c.actives[0]] + c.actives[1..];
    if IsTrue(c.actives[0]) {
      assert c.kinds == [c.kinds[0]] + c.kinds[1..];
    }
  }

  /** Dealing columns to slots and collecting them again loses nothing. */
  lemma {:induction false} SplitJoinA(c: ColumnsA)
    requires ShapedA(c)
    ensures JoinA(c).Some? && |JoinA(c).value| == |c.actives| && SplitA(JoinA(c).value) == c
    decreases |c.actives|
  {
    if c.actives == [] {
      assert c == ColumnsA([], [], [], [], []);
    } else {
      DropKeepsShape(c);
      SplitJoinA(DropA(c));
      var slots := JoinA(c).value;
      assert slots[1..] == JoinA(DropA(c)).value;
      assert c.actives[0] in c.actives && c.actives == [c.actives[0]] + c.actives[1..];
      if IsTrue(c.actives[0]) {
        assert c.kinds[0] in c.kinds && c.flags[0] in c.flags && c.values[0] in c.values;
        RowsRebuild(c.flags[0]);
        RowsRebuild(c.values[0]);
        if IsTrue(c.kinds[0]) {
          assert c.attachments[0] in c.attachments;
          RowsRebuild(c.attachments[0]);
        }
        PutBack(c, slots[0]);
      }
    }
  }

  lemma PutBack(c: ColumnsA, slot: SlotA)
    requires ShapedA(c) && c.actives != [] && IsTrue(c.actives[0]) && slot.ActiveA?
    requires Tuple([Flg(slot.flag0), Flg(slot.flag1)]) == c.flags[0]
    requires Tuple([Num(slot.value0), Num(slot.value1)]) == c.values[0]
    requires c.kinds[0] == Flg(slot.attached.Some?)
    requires slot.attached.Some? ==> c.attachments != [] && FromAttachment(slot.attached.value) == c.attachments[0]
    ensures PutA(slot, DropA(c)) == c
  {
    var p := PutA(slot, DropA(c));
    assert p.actives == c.actives && p.kinds == c.kinds && p.flags == c.flags && p.values == c.values;
    assert p.attachments == c.attachments;
  }

  lemma {:induction false} SplitJoinB(c: ColumnsB)
    requires ShapedB(c)
    ensures JoinB(c).Some? && |JoinB(c).value| == |c.actives| && SplitB(JoinB(c).value) == c
    decreases |c.actives|
  {
    if c.actives != [] {
      assert c.actives[0] in c.actives && c.actives == [c.actives[0]] + c.actives[1..];
      var d := if IsTrue(c.actives[0]) then ColumnsB(c.actives[1..], c.flags[1..]) else c.(actives := c.actives[1..]);
      if IsTrue(c.actives[0]) {
        assert c.flags[0] in c.flags && c.flags == [c.flags[0]] + c.flags[1..];
      }
      SplitJoinB(d);
      var slots := JoinB(c).value;
      assert slots[1..] == JoinB(d).value;
    }
  }

  // ----- Passes as a reader returns them -----

  function PassElem(j: nat): Schema {
    if j < 4 then Flag else if j == 4 then FlagPair() else if j == 5 then AttachmentLayout() else ValuePair()
  }

  function PassesOf(all: seq<seq<Value>>, j: nat): seq<Pass>
    requires j <= |all|
    decreases |all| - j
  {
    if j == |all| then [] else [Pass(PassElem(j), all[j])] + PassesOf(all, j + 1)
  }

  /** Each column has the length announced, and the columns can be written in the bits they were read from. */
  lemma {:induction false} ReadPassesRewrite(nA: nat, nB: nat, columns: seq<seq<Value>>, bits: seq<bool>, pos: nat)
    requires |columns| <= PASSES && ReadPasses(nA, nB, columns, bits, pos).Columns?
    ensures var r := ReadPasses(nA, nB, columns, bits, pos);
            && r.all[..|columns|] == columns
            && (|columns| <= 5 ==> AttachmentsFit(r.all[5]))
            && (forall j :: |columns| <= j < PASSES ==> |r.all[j]| == NextPass(nA, nB, r.all[..j]).1)
            && EmitPasses(PassesOf(r.all, |columns|), pos).Some?
            && r.pos == pos + |EmitPasses(PassesOf(r.all, |columns|), pos).value|
    decreases PASSES - |columns|
  {
    hide ParseEach, EmitEach, NextPass, AttachmentsFit, AttachmentLayout;
    if |columns| < PASSES {
      var (elem, n) := NextPass(nA, nB, columns);
      var cells := ReadPass(elem, n, bits, pos);
      assert elem == PassElem(|columns|) by { PassElemIs(nA, nB, columns); }
      CellsRewrite(elem, n, bits, pos);
      if |columns| == 5 {
        CellsFit(n, bits, pos);
      }
      ReadPassesRewrite(nA, nB, columns + [cells.vs], bits, cells.pos);
      var r := ReadPasses(nA, nB, columns, bits, pos);
      assert r.all[..|columns| + 1] == columns + [cells.vs];
      assert r.all[..|columns|] == r.all[..|columns| + 1][..|columns|];
      assert r.all[|columns|] == r.all[..|columns| + 1][|columns|];
      assert PassesOf(r.all, |columns|)[1..] == PassesOf(r.all, |columns| + 1);
    }
  }

  lemma PassElemIs(nA: nat, nB: nat, columns: seq<seq<Value>>)
    requires |columns| < PASSES
    ensures NextPass(nA, nB, columns).0 == PassElem(|columns|)
  {}

  lemma CellsRewrite(elem: Schema, n: nat, bits: seq<bool>, pos: nat)
    requires ReadPass(elem, n, bits, pos).Cells?
    ensures var c := ReadPass(elem, n, bits, pos);
            |c.vs| == n && EmitEach(elem, c.vs, pos).Some? && c.pos == pos + |EmitEach(elem, c.vs, pos).value|
  {
    hide ParseEach, EmitEach;
    ParsedEachRewritable(elem, n, bits, pos);
  }

  predicate AttachmentsFit(vs: seq<Value>) {
    forall v :: v in vs ==> Canonical(AttachmentLayout(), v)
  }

  /** Attachments as read hold codes of six bits. */
  lemma CellsFit(n: nat, bits: seq<bool>, pos: nat)
    requires ReadPass(AttachmentLayout(), n, bits, pos).Cells?
    ensures AttachmentsFit(ReadPass(AttachmentLayout(), n, bits, pos).vs)
  {
    hide ParseEach, EmitEach, Canonical, NoStray, AttachmentLayout, Emit;
    ParsedEachRewritable(AttachmentLayout(), n, bits, pos);
    var vs := ReadPass(AttachmentLayout(), n, bits, pos).vs;
    forall v | v in vs
      ensures NoStray(AttachmentLayout(), v)
    {
      CellsShaped(AttachmentLayout(), vs, pos, v);
      var p: nat :| Emit(AttachmentLayout(), v, p).Some?;
      AttachmentNoStray(v, p);
    }
  }

  lemma AttachmentNoStray(v: Value, pos: nat)
    requires Emit(AttachmentLayout(), v, pos).Some?
    ensures NoStray(AttachmentLayout(), v)
  {
    hide Emit, EmitAll;
    LeafShape(AttachmentLayout(), v, pos);
    FieldEmits(AttachmentLayout().fields, v.vs, pos, 0);
    LeavesNoStray(AttachmentLayout().fields, v.vs);
  }

  /** A cell that can be written has its layout's shape. */
  lemma {:induction false} CellsShaped(elem: Schema, vs: seq<Value>, pos: nat, v: Value)
    requires EmitEach(elem, vs, pos).Some? && v in vs
    ensures exists p: nat :: Emit(elem, v, p).Some?
    decreases |vs|
  {
    hide Emit;
    if v != vs[0] {
      CellsShaped(elem, vs[1..], pos + |Emit(elem, vs[0], pos).value|, v);
    }
  }

  lemma {:induction false} FieldEmits(fields: seq<Schema>, vs: seq<Value>, pos: nat, i: nat)
    requires EmitAll(fields, vs, pos).Some? && i < |fields|
    ensures |fields| == |vs| && exists p: nat :: Emit(fields[i], vs[i], p).Some?
    decreases i
  {
    hide Emit;
    if i > 0 {
      FieldEmits(fields[1..], vs[1..], pos + |Emit(fields[0], vs[0], pos).value|, i - 1);
    }
  }

  predicate IsLeaf(s: Schema) {
    s.Bounded? || s.BitField? || s.UInt?
  }

  lemma LeafShape(s: Schema, v: Value, pos: nat)
    requires Emit(s, v, pos).Some?
    ensures s.Flag? ==> v.Flg?
    ensures IsLeaf(s) ==> v.Num?
    ensures s.Struct? ==> v.Tuple? && EmitAll(s.fields, v.vs, pos).Some?
  {
    hide EmitNum;
  }

  lemma FieldShape(fields: seq<Schema>, vs: seq<Value>, pos: nat, i: nat)
    requires EmitAll(fields, vs, pos).Some? && i < |fields|
    ensures |fields| == |vs| && (fields[i].Flag? ==> vs[i].Flg?) && (IsLeaf(fields[i]) ==> vs[i].Num?)
  {
    hide Emit, EmitAll;
    FieldEmits(fields, vs, pos, i);
    var p: nat :| Emit(fields[i], vs[i], p).Some?;
    LeafShape(fields[i], vs[i], p);
  }

  lemma RowShape(v: Value, pos: nat)
    ensures Emit(Flag, v, pos).Some? ==> v.Flg?
    ensures Emit(FlagPair(), v, pos).Some? ==> IsFlagPair(v)
    ensures Emit(ValuePair(), v, pos).Some? ==> IsValuePair(v)
    ensures Emit(AttachmentLayout(), v, pos).Some? ==> IsAttachment(v)
  {
    hide Emit, EmitAll;
    if Emit(Flag, v, pos).Some? {
      LeafShape(Flag, v, pos);
    }
    if Emit(FlagPair(), v, pos).Some? {
      LeafShape(FlagPair(), v, pos);
      FieldShape(FlagPair().fields, v.vs, pos, 0);
      FieldShape(FlagPair().fields, v.vs, pos, 1);
    }
    if Emit(ValuePair(), v, pos).Some? {
      LeafShape(ValuePair(), v, pos);
      FieldShape(ValuePair().fields, v.vs, pos, 0);
      FieldShape(ValuePair().fields, v.vs, pos, 1);
    }
    if Emit(AttachmentLayout(), v, pos).Some? {
      var fields := AttachmentLayout().fields;
      LeafShape(AttachmentLayout(), v, pos);
      FieldShape(fields, v.vs, pos, 0);
      FieldShape(fields, v.vs, pos, 1);
      FieldShape(fields, v.vs, pos, 2);
      FieldShape(fields, v.vs, pos, 3);
      FieldShape(fields, v.vs, pos, 4);
    }
  }

  /** A column that can be written has rows of its layout's shape. */
  lemma ColumnShape(elem: Schema, vs: seq<Value>, pos: nat)
    requires EmitEach(elem, vs, pos).Some?
    ensures elem == Flag ==> forall v :: v in vs ==> v.Flg?
    ensures elem == FlagPair() ==> forall v :: v in vs ==> IsFlagPair(v)
    ensures elem == ValuePair() ==> forall v :: v in vs ==> IsValuePair(v)
    ensures elem == AttachmentLayout() ==> forall v :: v in vs ==> IsAttachment(v)
  {
    hide Emit, EmitEach, FlagPair, ValuePair, AttachmentLayout, IsFlagPair, IsValuePair, IsAttachment;
    forall v | v in vs
      ensures elem == Flag ==> v.Flg?
      ensures elem == FlagPair() ==> IsFlagPair(v)
      ensures elem == ValuePair() ==> IsValuePair(v)
      ensures elem == AttachmentLayout() ==> IsAttachment(v)
    {
      CellsShaped(elem, vs, pos, v);
      var p: nat :| Emit(elem, v, p).Some?;
      RowShape(v, p);
    }
  }

  lemma {:induction false} PassEmits(all: seq<seq<Value>>, i: nat, j: nat, pos: nat)
    requires i <= j < |all| && EmitPasses(PassesOf(all, i), pos).Some?
    ensures exists p: nat :: EmitEach(PassElem(j), all[j], p).Some?
    decreases j - i
  {
    hide EmitEach, PassElem;
    var passes := PassesOf(all, i);
    assert passes[1..] == PassesOf(all, i + 1);
    if i < j {
      PassEmits(all, i + 1, j, pos + |EmitEach(passes[0].elem, passes[0].cells, pos).value|);
    }
  }

  lemma PassShape(all: seq<seq<Value>>, j: nat, pos: nat)
    requires j < |all| && EmitPasses(PassesOf(all, 0), pos).Some?
    ensures j < 4 ==> forall v :: v in all[j] ==> v.Flg?
    ensures j == 4 ==> forall v :: v in all[j] ==> IsFlagPair(v)
    ensures j == 5 ==> forall v :: v in all[j] ==> IsAttachment(v)
    ensures j > 5 ==> forall v :: v in all[j] ==> IsValuePair(v)
  {
    hide EmitEach, EmitPasses, FlagPair, ValuePair, AttachmentLayout;
    PassEmits(all, 0, j, pos);
    var p: nat :| EmitEach(PassElem(j), all[j], p).Some?;
    ColumnShape(PassElem(j), all[j], p);
  }

  // ----- The table -----

  function AllA(all: seq<seq<Value>>): ColumnsA
    requires |all| == PASSES
  {
    ColumnsA(all[0], all[2], all[4], all[5], all[6])
  }

  function AllB(all: seq<seq<Value>>): ColumnsB
    requires |all| == PASSES
  {
    ColumnsB(all[1], all[3])
  }

  lemma AnnouncedLengths(nA: nat, nB: nat, all: seq<seq<Value>>)
    requires Announced(nA, nB, all)
    ensures |all[0]| == nA && |all[1]| == nB
    ensures CountTrue(all[0]) == |all[2]| == |all[4]| == |all[6]|
    ensures CountTrue(all[1]) == |all[3]| && CountTrue(all[2]) == |all[5]|
  {
    hide CountTrue;
    assert |all[0]| == NextPass(nA, nB, all[..0]).1 && |all[1]| == NextPass(nA, nB, all[..1]).1;
    assert |all[2]| == NextPass(nA, nB, all[..2]).1 && |all[3]| == NextPass(nA, nB, all[..3]).1;
    assert |all[4]| == NextPass(nA, nB, all[..4]).1 && |all[5]| == NextPass(nA, nB, all[..5]).1;
    assert |all[6]| == NextPass(nA, nB, all[..6]).1;
  }

  /** Each column has the length the columns before it announce. */
  predicate Announced(nA: nat, nB: nat, all: seq<seq<Value>>) {
    |all| == PASSES && forall j :: 0 <= j < PASSES ==> |all[j]| == NextPass(nA, nB, all[..j]).1
  }

  /** The whole table as read: announced columns that can be written where they were read. */
  lemma PassesRead(nA: nat, nB: nat, bits: seq<bool>, pos: nat)
    requires ReadPasses(nA, nB, [], bits, pos).Columns?
    ensures var r := ReadPasses(nA, nB, [], bits, pos);
            && Announced(nA, nB, r.all) && AttachmentsFit(r.all[5]) && EmitPasses(PassesOf(r.all, 0), pos).Some?
            && r.pos == pos + |EmitPasses(PassesOf(r.all, 0), pos).value|
  {
    hide ReadPasses, NextPass, EmitPasses, PassesOf, AttachmentsFit;
    ReadPassesRewrite(nA, nB, [], bits, pos);
  }

  /** What the columns of a table that was read come to: slots that split into the same columns. */
  lemma ColumnsRebuild(nA: nat, nB: nat, all: seq<seq<Value>>, header: Value, pos: nat, end: nat)
    requires Announced(nA, nB, all)
    requires EmitPasses(PassesOf(all, 0), pos).Some?
    ensures AssembleTable(header, all, end).TableRead?
    ensures var t := AssembleTable(header, all, end).table;
            && AssembleTable(header, all, end).pos == end && t.header == header
            && |t.slotsA| == nA && |t.slotsB| == nB
            && SplitA(t.slotsA) == AllA(all) && SplitB(t.slotsB) == AllB(all)
  {
    hide CountTrue, NextPass, EmitPasses, PassesOf, JoinA, JoinB, SplitA, SplitB;
    AnnouncedLengths(nA, nB, all);
    assert |all| == PASSES;
    hide Announced;
    PassShape(all, 0, pos);
    PassShape(all, 1, pos);
    PassShape(all, 2, pos);
    PassShape(all, 3, pos);
    PassShape(all, 4, pos);
    PassShape(all, 5, pos);
    PassShape(all, 6, pos);
    SplitJoinA(AllA(all));
    SplitJoinB(AllB(all));
  }

  lemma SamePasses(t: SlotTable, all: seq<seq<Value>>)
    requires |all| == PASSES && SplitA(t.slotsA) == AllA(all) && SplitB(t.slotsB) == AllB(all)
    ensures PassesAfterCounts(t) == PassesOf(all, 0)
  {
    hide SplitA, SplitB, FlagPair, ValuePair, AttachmentLayout;
    assert PassesOf(all, 7) == [];
    assert PassesOf(all, 6) == [Pass(ValuePair(), all[6])];
    assert PassesOf(all, 5) == [Pass(AttachmentLayout(), all[5])] + PassesOf(all, 6);
    assert PassesOf(all, 4) == [Pass(FlagPair(), all[4])] + PassesOf(all, 5);
    assert PassesOf(all, 3) == [Pass(Flag, all[3])] + PassesOf(all, 4);
    assert PassesOf(all, 2) == [Pass(Flag, all[2])] + PassesOf(all, 3);
    assert PassesOf(all, 1) == [Pass(Flag, all[1])] + PassesOf(all, 2);
  }

  lemma {:induction false} LeavesNoStray(fields: seq<Schema>, vs: seq<Value>)
    requires |fields| == |vs| && forall f :: f in fields ==> IsLeaf(f) || f.Flag?
    ensures NoStrays(fields, vs)
    decreases |fields|
  {
    if fields != [] {
      assert fields[0] in fields;
      LeavesNoStray(fields[1..], vs[1..]);
    }
  }

  lemma LeafStructNoStray(s: Schema, v: Value, pos: nat)
    requires s.Struct? && (forall f :: f in s.fields ==> IsLeaf(f)) && Emit(s, v, pos).Some?
    ensures NoStray(s, v)
  {
    hide Emit, EmitAll;
    LeafShape(s, v, pos);
    if s.fields == [] {
      assert |v.vs| == 0 by { NothingEmits(v.vs, pos); }
    } else {
      FieldEmits(s.fields, v.vs, pos, 0);
    }
    LeavesNoStray(s.fields, v.vs);
  }

  lemma NothingEmits(vs: seq<Value>, pos: nat)
    requires EmitAll([], vs, pos).Some?
    ensures |vs| == 0
  {}

  /** The header and the counts in front of the table, as read. */
  lemma FrontShape(bits: seq<bool>, pos: nat)
    requires Parse(Struct([HeaderLayout(), Counts()]), bits, pos).Done?
    ensures var v := Parse(Struct([HeaderLayout(), Counts()]), bits, pos).value;
            && v.Tuple? && |v.vs| == 2
            && v.vs[1] == Tuple([Num(NumAt(v.vs[1], 0)), Num(NumAt(v.vs[1], 1))])
            && 0 <= NumAt(v.vs[1], 0) < 256 && 0 <= NumAt(v.vs[1], 1) < 256
            && Canonical(HeaderLayout(), v.vs[0])
  {
    var front := Struct([HeaderLayout(), Counts()]);
    ParsedIsRewritable(front, bits, pos);
    var v := Parse(front, bits, pos).value;
    FrontParts(v, pos);
    hide Parse, Emit;
    CountsShape(v.vs[1]);
  }

  lemma FrontParts(v: Value, pos: nat)
    requires Emit(Struct([HeaderLayout(), Counts()]), v, pos).Some?
    requires Canonical(Struct([HeaderLayout(), Counts()]), v) <==> NoStray(Struct([HeaderLayout(), Counts()]), v)
    ensures v.Tuple? && |v.vs| == 2
    ensures Canonical(HeaderLayout(), v.vs[0]) && Canonical(Counts(), v.vs[1])
    ensures v.vs[1].Tuple? && |v.vs[1].vs| == 2 && v.vs[1].vs[0].Num? && v.vs[1].vs[1].Num?
  {
    hide Emit, EmitAll;
    var fields := [HeaderLayout(), Counts()];
    LeafShape(Struct(fields), v, pos);
    FieldEmits(fields, v.vs, pos, 0);
    FieldEmits(fields, v.vs, pos, 1);
    var p: nat :| Emit(fields[0], v.vs[0], p).Some?;
    var q: nat :| Emit(fields[1], v.vs[1], q).Some?;
    LeafStructNoStray(HeaderLayout(), v.vs[0], p);
    LeafStructNoStray(Counts(), v.vs[1], q);
    LeafShape(Counts(), v.vs[1], q);
    FieldShape(Counts().fields, v.vs[1].vs, q, 0);
    FieldShape(Counts().fields, v.vs[1].vs, q, 1);
    PairNoStray(HeaderLayout(), Counts(), v);
  }

  lemma PairNoStray(a: Schema, b: Schema, v: Value)
    requires v.Tuple? && |v.vs| == 2 && NoStray(a, v.vs[0]) && NoStray(b, v.vs[1])
    requires Canonical(Struct([a, b]), v) <==> NoStray(Struct([a, b]), v)
    ensures Canonical(a, v.vs[0]) && Canonical(b, v.vs[1])
  {
    var fields := [a, b];
    assert fields[1..] == [b] && fields[1..][1..] == [] && v.vs[1..][0] == v.vs[1] && v.vs[1..][1..] == [];
    assert NoStrays(fields[1..], v.vs[1..]);
    assert NoStray(Struct(fields), v);
    assert AllCanonical(fields[1..], v.vs[1..]);
  }

  lemma CountsShape(v: Value)
    requires Canonical(Counts(), v) && v.Tuple? && |v.vs| == 2 && v.vs[0].Num? && v.vs[1].Num?
    ensures v == Tuple([Num(NumAt(v, 0)), Num(NumAt(v, 1))])
    ensures 0 <= NumAt(v, 0) < 256 && 0 <= NumAt(v, 1) < 256
  {
    assert Pow2(8) == 256 by { assert Pow2(4) == 16; }
    hide Pow2;
    assert v.vs == [v.vs[0], v.vs[1]];
    assert v.vs[1..][0] == v.vs[1];
  }

  function Front(): Schema {
    Struct([HeaderLayout(), Counts()])
  }

  /** The stages of reading a table. */
  lemma TableParts(bits: seq<bool>, pos: nat) returns (front: Parsed, nA: nat, nB: nat, r: Columns)
    requires ParseTable(bits, pos).TableRead?
    ensures front == Parse(Front(), bits, pos) && front.Done? && front.value.Tuple? && |front.value.vs| == 2
    ensures nA == NumAt(front.value.vs[1], 0) && nB == NumAt(front.value.vs[1], 1)
    ensures r == ReadPasses(nA, nB, [], bits, front.pos) && r.Columns?
    ensures ParseTable(bits, pos) == AssembleTable(front.value.vs[0], r.all, r.pos)
  {
    hide Parse, ReadPasses, AssembleTable, HeaderLayout, Counts;
    front := Parse(Front(), bits, pos);
    nA, nB := NumAt(front.value.vs[1], 0), NumAt(front.value.vs[1], 1);
    r := ReadPasses(nA, nB, [], bits, front.pos);
  }

  /** The stages of writing it again. */
  lemma TableFromParts(t: SlotTable, front: Value, all: seq<seq<Value>>, pos: nat, middle: nat, end: nat)
    requires Tuple([t.header, CountsOf(t)]) == front && PassesAfterCounts(t) == PassesOf(all, 0) && |all| == PASSES
    requires Emit(Front(), front, pos).Some? && middle == pos + |Emit(Front(), front, pos).value|
    requires EmitPasses(PassesOf(all, 0), middle).Some? && end == middle + |EmitPasses(PassesOf(all, 0), middle).value|
    ensures EmitCodes(t, pos).Some? && end == pos + |EmitCodes(t, pos).value|
  {
    hide Emit, EmitPasses, PassesOf, PassesAfterCounts, HeaderLayout, Counts, CountsOf;
  }

  lemma FrontIs(front: Value, t: SlotTable)
    requires front.Tuple? && |front.vs| == 2 && front.vs[0] == t.header && front.vs[1] == CountsOf(t)
    ensures Tuple([t.header, CountsOf(t)]) == front
  {
    assert front.vs == [front.vs[0], front.vs[1]];
  }

  /** The codes of a table that was read stand for as many bits as it was read from. */
  lemma CodesRewrite(bits: seq<bool>, pos: nat)
    requires ParseTable(bits, pos).TableRead?
    ensures var r := ParseTable(bits, pos);
            && EmitCodes(r.table, pos).Some? && r.pos == pos + |EmitCodes(r.table, pos).value|
            && TableCanonical(r.table)
  {
    var front, nA, nB, r := TableParts(bits, pos);
    FrontShape(bits, pos);
    ParsedIsRewritable(Front(), bits, pos);
    hide Parse, Emit, EmitPasses, ReadPasses, AssembleTable, HeaderLayout, Counts, PassesAfterCounts, Canonical,
         NoStray,
         NextPass, SplitA, SplitB, PassesOf, Announced, ParseTable, EmitCodes, AttachmentsFit, CodesFit;
    PassesRead(nA, nB, bits, front.pos);
    ColumnsRebuild(nA, nB, r.all, front.value.vs[0], front.pos, r.pos);
    var t := ParseTable(bits, pos).table;
    SamePasses(t, r.all);
    FrontIs(front.value, t);
    TableFromParts(t, front.value, r.all, pos, front.pos, r.pos);
    SlotsFit(t.slotsA);
  }

  /**
   * A table that was read can be written again, in as many bits as it was read from; the clamp may
   * change codes of attached positions and nothing else.
   */
  lemma TableRewrites(bits: seq<bool>, pos: nat)
    requires ParseTable(bits, pos).TableRead?
    ensures var r := ParseTable(bits, pos);
            && EmitTable(r.table, pos).Some? && r.pos == pos + |EmitTable(r.table, pos).value|
            && TableCanonical(r.table)
            && (ClampedTable(r.table) == r.table <==> PositionsKept(r.table))
  {
    hide ParseTable, EmitTable, EmitCodes, TableCanonical, ClampedTable, PositionsKept;
    CodesRewrite(bits, pos);
    ClampKeepsSize(ParseTable(bits, pos).table, pos);
    ClampedTableIff(ParseTable(bits, pos).table);
  }

  lemma {:induction false} SlotsFit(slots: seq<SlotA>)
    requires AttachmentsFit(SplitA(slots).attachments)
    ensures forall slot :: slot in slots ==> CodesFit(slot)
  {
    hide Canonical, AttachmentLayout;
    if slots != [] {
      var rest := SplitA(slots[1..]).attachments;
      assert forall v :: v in rest ==> v in SplitA(slots).attachments;
      SlotsFit(slots[1..]);
      if slots[0].ActiveA? && slots[0].attached.Some? {
        var v := FromAttachment(slots[0].attached.value);
        assert SplitA(slots).attachments == [v] + rest;
        assert v in SplitA(slots).attachments;
        AttachmentCodes(slots[0].attached.value);
      }
    }
  }

  lemma AttachmentCodes(a: Attachment)
    requires Canonical(AttachmentLayout(), FromAttachment(a))
    ensures a.x < 64 && a.y < 64 && a.z < 64
  {
    assert Pow2(6) == 64;
    var vs := FromAttachment(a).vs;
    assert vs[1..][1..][0] == Num(a.x) && vs[1..][1..][1..][0] == Num(a.y) && vs[1..][1..][1..][1..][0] == Num(a.z);
    var leaf := Leaf(SLOT_POSITION);
    var f := [Flag, Flag, leaf, leaf, leaf];
    assert AllCanonical(f[1..], vs[1..]) && AllCanonical(f[1..][1..], vs[1..][1..]);
    assert AllCanonical(f[1..][1..][1..], vs[1..][1..][1..]) &&
           AllCanonical(f[1..][1..][1..][1..], vs[1..][1..][1..][1..]);
  }

  // ----- The whole state -----

  /**
   * A tree that was read can be written again, in as many bits; only stray quest flags keep it from being
   * canonical.
   */
  lemma StateRewrites(bits: seq<bool>)
    requires ParseState(bits).StateRead?
    ensures var r := ParseState(bits);
            && EmitState(r.state).Some? && r.pos == |EmitState(r.state).value|
            && TableCanonical(r.state.table)
            && (Canonical(Head(), r.state.head) <==> NoStray(Head(), r.state.head))
            && (Canonical(Rest(), r.state.rest) <==> NoStray(Rest(), r.state.rest))
  {
    hide Parse, Emit, ParseTable, EmitTable, Canonical, NoStray, Head, Rest, TableCanonical, ClampedTable,
         PositionsKept;
    ParsedIsRewritable(Head(), bits, 0);
    var head := Parse(Head(), bits, 0);
    TableRewrites(bits, head.pos);
    var table := ParseTable(bits, head.pos);
    ParsedIsRewritable(Rest(), bits, table.pos);
  }

  lemma {:induction false} PassesWithin(nA: nat, nB: nat, columns: seq<seq<Value>>, bits: seq<bool>, pos: nat)
    requires |columns| <= PASSES && ReadPasses(nA, nB, columns, bits, pos).Columns? && pos <= |bits|
    ensures ReadPasses(nA, nB, columns, bits, pos).pos <= |bits|
    decreases PASSES - |columns|
  {
    hide ParseEach, NextPass;
    if |columns| < PASSES {
      var (elem, n) := NextPass(nA, nB, columns);
      var cells := ReadPass(elem, n, bits, pos);
      ParsedEachWithin(elem, n, bits, pos);
      PassesWithin(nA, nB, columns + [cells.vs], bits, cells.pos);
    }
  }

  lemma AssembledPos(header: Value, all: seq<seq<Value>>, end: nat)
    requires |all| == PASSES && AssembleTable(header, all, end).TableRead?
    ensures AssembleTable(header, all, end).pos == end
  {
    hide JoinA, JoinB;
  }

  lemma StateWithin(bits: seq<bool>)
    requires ParseState(bits).StateRead?
    ensures ParseState(bits).pos <= |bits|
  {
    hide Parse, ParseTable, Head, Rest, ReadPasses, AssembleTable;
    ParsedWithin(Head(), bits, 0);
    var head := Parse(Head(), bits, 0);
    var front, nA, nB, r := TableParts(bits, head.pos);
    ParsedWithin(Front(), bits, head.pos);
    PassesWithin(nA, nB, [], bits, front.pos);
    AssembledPos(front.value.vs[0], r.all, r.pos);
    ParsedWithin(Rest(), bits, r.pos);
  }

  lemma SameBytes(n: nat, m: nat, end: nat)
    requires end <= 8 * n && 8 * n - end <= Padding(end) && 8 * m == end + Padding(end)
    ensures m == n
  {}

  // ----- Names -----

  lemma {:induction false} PassesAnywhere(passes: seq<Pass>, p: nat, q: nat)
    requires EmitPasses(passes, p).Some?
    ensures EmitPasses(passes, q).Some?
    decreases |passes|
  {
    hide EmitEach;
    if passes != [] {
      EachEmitAnywhere(passes[0].elem, passes[0].cells, p, q);
      var first := EmitEach(passes[0].elem, passes[0].cells, p).value;
      var second := EmitEach(passes[0].elem, passes[0].cells, q).value;
      PassesAnywhere(passes[1..], p + |first|, q + |second|);
    }
  }

  lemma TableAnywhere(t: SlotTable, p: nat, q: nat)
    requires EmitTable(t, p).Some?
    ensures EmitTable(t, q).Some?
  {
    hide Emit, EmitPasses, PassesAfterCounts, HeaderLayout, Counts, ClampedTable;
    var c := ClampedTable(t);
    var s, v := Struct([HeaderLayout(), Counts()]), Tuple([c.header, CountsOf(c)]);
    EmitsAnywhere(s, v, p, q);
    PassesAnywhere(PassesAfterCounts(c), p + |Emit(s, v, p).value|, q + |Emit(s, v, q).value|);
  }

  /** With its names as strings a tree can be written exactly when each of them still fits its field. */
  lemma NamedEmitsIff(st: State)
    requires EmitState(st).Some?
    ensures EmitState(Named(st)).Some? <==> TextsFit(Head(), st.head)
  {
    hide Emit, EmitTable, Head, Rest, Spelled, TextsFit;
    SpelledEmitsIff(Head(), st.head, 0, 0);
    if TextsFit(Head(), st.head) {
      var head, spelled := Emit(Head(), st.head, 0).value, Emit(Head(), Named(st).head, 0).value;
      TableAnywhere(st.table, |head|, |spelled|);
      var table, again := EmitTable(st.table, |head|).value, EmitTable(st.table, |spelled|).value;
      EmitsAnywhere(Rest(), st.rest, |head| + |table|, |spelled| + |again|);
    }
  }

  lemma NamedCanonicalIff(st: State)
    requires TableCanonical(st.table) && TextsFit(Head(), st.head)
    requires Canonical(Head(), st.head) <==> NoStray(Head(), st.head)
    requires Canonical(Rest(), st.rest) <==> NoStray(Rest(), st.rest)
    ensures NoStray(Head(), Named(st).head) && NoStray(Rest(), st.rest) ==> StateCanonical(Named(st))
    ensures WellNamed(Named(st))
  {
    hide Canonical, TextsFit, Spelled, NoStray, Head, Rest, TableCanonical, TextsWellFormed;
    SpelledStray(Head(), st.head);
    SpelledIsWellFormed(Head(), st.head);
    if NoStray(Head(), st.head) {
      SpelledCanonical(Head(), st.head);
    }
  }

  // ----- Reading what was written -----

  /** The parts of a state that was written, as they are read back. */
  lemma WrittenState(st: State, bits: seq<bool>)
    requires EmitState(st).Some? && Holds(bits, 0, EmitState(st).value)
    requires ParseState(bits).StateRead?
    ensures var r := ParseState(bits).state;
            && NoStray(Head(), r.head) && (WellNamed(st) ==> WellNamed(r))
            && TableCanonical(r.table)
            && (r.head == st.head ==> Canonical(Head(), st.head))
            && (TableCanonical(st.table) ==>
                  NoStray(Rest(), r.rest) && (r.rest == st.rest ==> Canonical(Rest(), st.rest)))
  {
    hide Emit, EmitTable, Parse, ParseTable, Canonical, NoStray, TableCanonical, Head, Rest, TextsWellFormed,
         ClampedTable, PositionsKept;
    var head := Emit(Head(), st.head, 0).value;
    var table := EmitTable(st.table, |head|).value;
    var rest := Emit(Rest(), st.rest, |head| + |table|).value;
    HoldsSplit(bits, 0, head, table + rest);
    HoldsSplit(bits, |head|, table, rest);
    var r := ParseState(bits).state;
    WrittenReads(Head(), st.head, bits, 0);
    TableRewrites(bits, |head|);
    if r.head == st.head {
      OnlyCanonicalComesBack(Head(), st.head, bits, 0);
    }
    if TableCanonical(st.table) {
      TableRoundTrip(st.table, bits, |head|);
      WrittenReads(Rest(), st.rest, bits, |head| + |table|);
      if r.rest == st.rest {
        OnlyCanonicalComesBack(Rest(), st.rest, bits, |head| + |table|);
      }
    }
  }

  /** Of the states with valid names that encodePlayerState accepts, only canonical ones decode to what was encoded. */
  lemma OnlyCanonicalDecodes(st: State, bytes: seq<Byte>)
    requires EmitState(st).Some? && WellNamed(st) && Decode(bytes) == Some(st)
    requires Unpack(bytes) == EmitState(st).value + Falses(Padding(|EmitState(st).value|))
    ensures StateCanonical(st)
  {
    hide EmitState, ParseState, Canonical, TableCanonical, NoStray, Head, Rest, Unpack, Spelled, TextsWellFormed;
    var r := ParseState(Unpack(bytes)).state;
    WrittenState(st, Unpack(bytes));
    SpelledIff(Head(), r.head);
    assert r == st;
  }

  /**
   * Of the states with valid names that encodePlayerState accepts, exactly the canonical ones whose
   * positions the clamp does not move decode to what was encoded.
   */
  lemma EncodedDecodesIff(st: State, bytes: seq<Byte>)
    requires EmitState(st).Some? && WellNamed(st) && |bytes| <= PLAYER_STATE_MAX_BYTES
    requires Unpack(bytes) == EmitState(st).value + Falses(Padding(|EmitState(st).value|))
    ensures Decode(bytes) == Some(st) <==> StateCanonical(st) && PositionsKept(st.table)
  {
    hide Decode, EmitState, StateCanonical, Unpack, PositionsKept, Clamped, WellNamed;
    if StateCanonical(st) {
      EncodedDecodes(st, bytes);
    } else if Decode(bytes) == Some(st) {
      OnlyCanonicalDecodes(st, bytes);
    }
  }

  // ----- Decoding, then encoding again -----

  /** What decodePlayerState parses, before names become strings. */
  function TreeRead(bytes: seq<Byte>): State
    requires Decode(bytes).Some?
  {
    ParseState(Unpack(bytes)).state
  }

  predicate Unchanged(st: State) {
    NoStray(Head(), st.head) && NoStray(Rest(), st.rest) && PositionsKept(st.table)
  }

  /** again is what encodePlayerState returns for st. */
  predicate IsEncoding(st: State, again: seq<Byte>) {
    && EmitState(st).Some? && |again| <= PLAYER_STATE_MAX_BYTES
    && Unpack(again) == EmitState(st).value + Falses(Padding(|EmitState(st).value|))
  }

  /**
   * A state that decodes can be encoded again if and only if each of its names, as the string it was
   * read as, still fits its field and the whole its limit; with valid names it can, in as many bytes.
   */
  lemma ReencodesIff(bytes: seq<Byte>)
    requires Decode(bytes).Some?
    ensures var st := Decode(bytes).value;
            && (EmitState(st).Some? <==> TextsFit(Head(), TreeRead(bytes).head))
            && (WellNamed(TreeRead(bytes)) ==> EmitState(st).Some? && BytesFor(|EmitState(st).value|) == |bytes|)
  {
    hide ParseState, EmitState, Unpack, NoStray, Head, Rest, Canonical, TableCanonical, TextsFit, Spelled,
         TextsWellFormed;
    var raw := TreeRead(bytes);
    StateRewrites(Unpack(bytes));
    StateWithin(Unpack(bytes));
    SameBytes(|bytes|, BytesFor(ParseState(Unpack(bytes)).pos), ParseState(Unpack(bytes)).pos);
    NamedEmitsIff(raw);
    SpelledIff(Head(), raw.head);
  }

  /**
   * Encoded again and decoded again, a state has the same fields if and only if no world-quest flag
   * at or past the count was set and the clamp moves no attached position.
   */
  lemma ReencodedDecodesIff(bytes: seq<Byte>, again: seq<Byte>)
    requires Decode(bytes).Some? && IsEncoding(Decode(bytes).value, again)
    ensures Decode(again) == Decode(bytes) <==> Unchanged(Decode(bytes).value)
  {
    hide ParseState, EmitState, Unpack, NoStray, Head, Rest, Canonical, TableCanonical, TextsFit, Spelled,
         TextsWellFormed,
         PositionsKept, StateCanonical, Clamped;
    var st, raw := Decode(bytes).value, TreeRead(bytes);
    StateRewrites(Unpack(bytes));
    NamedEmitsIff(raw);
    NamedCanonicalIff(raw);
    if NoStray(Head(), st.head) && NoStray(Rest(), st.rest) {
      EncodedDecodes(st, again);
    } else if Decode(again) == Some(st) {
      WrittenState(st, Unpack(again));
      SpelledStray(Head(), TreeRead(again).head);
      assert false;
    }
  }

  // ----- Inputs that fail -----

  /** A count of none out of limit, then n flags of which only the first is set. */
  function CountOfNone(limit: nat): seq<bool>
    requires BoundedOk(0, limit)
  {
    EmitNum(Bounded(0, limit), 0, 0).value
  }

  /** Where the first flag is set although the count is none, it is read, and written as unset. */
  lemma StrayIsLost(limit: nat, n: nat)
    requires BoundedOk(0, limit) && n >= 1
    ensures var count := CountOfNone(limit);
            var first := Parse(MaskedFlags(limit, n), count + [true] + Falses(n - 1), 0);
            && first.Done? && IsMasked(first.value, n)
            && first.value.vs[0] == Num(0) && first.value.vs[1].vs[0] == Flg(true)
            && Emit(MaskedFlags(limit, n), first.value, 0) == Some(count + Falses(n))
            && var second := Parse(MaskedFlags(limit, n), count + Falses(n), 0);
               second.Done? && IsMasked(second.value, n) && second.value.vs[1].vs[0] == Flg(false)
  {
    var count := CountOfNone(limit);
    var p := |count|;
    ReadsFlags(limit, [true] + Falses(n - 1));
    ReadsFlags(limit, Falses(n));
    assert count + ([true] + Falses(n - 1)) == count + [true] + Falses(n - 1);
    NoneLive(Flags([true] + Falses(n - 1)));
  }

  lemma ReadsFlags(limit: nat, flags: seq<bool>)
    requires BoundedOk(0, limit)
    ensures Parse(MaskedFlags(limit, |flags|), CountOfNone(limit) + flags, 0) ==
            Done(Tuple([Num(0), Tuple(Flags(flags))]), |CountOfNone(limit)| + |flags|)
    ensures IsMasked(Tuple([Num(0), Tuple(Flags(flags))]), |flags|)
  {
    hide Parse, BoundedOk, Flags, ParseNum, IsMasked, EmitNum;
    var bits := CountOfNone(limit) + flags;
    CountReads(limit, bits);
    MaskedReads(limit, flags, bits, |CountOfNone(limit)|);
    FlagsAreFlags(flags);
  }

  lemma CountReads(limit: nat, bits: seq<bool>)
    requires BoundedOk(0, limit) && CountOfNone(limit) <= bits
    ensures ParseNum(Bounded(0, limit), bits, 0) == Done(Num(0), |CountOfNone(limit)|)
  {
    assert EmitNum(Bounded(0, limit), 0, 0).Some?;
    hide ParseNum, EmitNum, BoundedOk;
    CountRoundTrip(limit, 0, bits, 0);
  }

  lemma MaskedReads(limit: nat, flags: seq<bool>, bits: seq<bool>, p: nat)
    requires ParseNum(Bounded(0, limit), bits, 0) == Done(Num(0), p) && p <= |bits| && bits[p..] == flags
    ensures Parse(MaskedFlags(limit, |flags|), bits, 0) == Done(Tuple([Num(0), Tuple(Flags(flags))]), p + |flags|)
  {
    hide ParseNum, Flags, ParseBytes, ParseAll, ParseEach;
    var n := |flags|;
    assert |bits| == p + n && bits[p..p + n] == bits[p..];
    assert Parse(MaskedFlags(limit, n), bits, 0) == Done(Tuple([Num(0), Tuple(Flags(bits[p..p + n]))]), p + n);
  }

  lemma FlagsAreFlags(flags: seq<bool>)
    ensures forall f :: f in Flags(flags) ==> f.Flg?
    ensures IsMasked(Tuple([Num(0), Tuple(Flags(flags))]), |flags|)
  {}

  lemma NoneLive(flags: seq<Value>)
    requires forall f :: f in flags ==> f.Flg?
    ensures Live(flags, 0) == Falses(|flags|)
  {}

  /** So with the first quest flag set and a count of none: what is read is not what comes back. */
  lemma StrayQuestFlagIsLost()
    ensures BoundedOk(0, 0x100)
    ensures var quests := MaskedFlags(0x100, 0xff);
            var first := Parse(quests, CountOfNone(0x100) + [true] + Falses(254), 0);
            && first.Done? && Emit(quests, first.value, 0) == Some(CountOfNone(0x100) + Falses(255))
            && Parse(quests, CountOfNone(0x100) + Falses(255), 0) != first
  {
    QuestCount();
    hide BoundedOk, Parse, Emit, CountOfNone;
    StrayIsLost(0x100, 0xff);
  }

  lemma QuestCount()
    ensures BoundedOk(0, 0x100)
  {}

  /** Thirty bytes that spell no character make a name of ninety, which its field no longer takes. */
  lemma LongNameRefused()
    ensures var name: seq<Byte> := seq(30, _ => 0xFF);
            Emit(Text(64), Blob(name), 0).Some? && Emit(Text(64), Spelled(Text(64), Blob(name)), 0) == None
  {
    OnesTriple(30);
  }
}
