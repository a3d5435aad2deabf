/**
 * The PlayerState layout and its codec: src/protocol/types/PlayerState.js. Quantized leaves are
 * their codes, float leaves their 32-bit patterns, strings their bytes without the NUL.
 */
module PlayerStates {
  import opened Octets
  import opened Options
  import opened BitStreams
  import opened Schemas
  import Quantizer
  import opened PlayerRanges
  import P = SlotPositions

  // ----- Layout -----

  function Times(n: nat, s: Schema): Schema {
    Struct(seq(n, _ => s))
  }

  /** vec: three floats. */
  function Vec(): Schema {
    Times(3, UInt(4))
  }

  /** qf: one code of the given range. */
  function Leaf(q: Quantizer.Range): Schema {
    BitField(q.bits)
  }

  /** qv: three of them. */
  function Leaves(q: Quantizer.Range): Schema {
    Times(3, Leaf(q))
  }

  function NetState(): Schema {
    Struct([UInt(2), Times(2, UInt(1)), Bounded(0, 0x100), UInt(1), UInt(4), Bounded(0, 3), Times(2, Flag)])
  }

  function MoveHeader(): Schema {
    Struct([UInt(8), Times(4, UInt(1)), Times(2, Flag), Bounded(0, 0x30), Flag, UInt(2), Bounded(0, 3), UInt(2)])
  }

  function MoveState(): Schema {
    Struct([Leaves(ROTATION), Leaves(ROTATION), Leaves(VELOCITY), Leaves(DIRECTION), Leaves(DIRECTION),
            Leaves(WIDE_DIRECTION), Leaf(MOVE_SCALAR), Leaf(MOVE_SCALAR), Flag, Leaves(DIRECTION)])
  }

  function BodyKeyFrame(): Schema {
    Struct([Leaf(FRAME_TIME), Times(6, Leaf(FRAME_WEIGHT)), Leaves(FRAME_POSITION), Leaves(NORMAL), Leaves(TANGENT),
            Leaves(FAR_POINT), Leaves(COARSE_POINT), Leaves(COARSE_POINT), Leaves(FINE_POINT), Leaves(FINE_POINT),
            Leaf(Angle(0)), Flag])
  }

  function QueuedState(): Schema {
    Struct([UInt(1), UInt(4), Vec(), Leaf(ROTATION), Counted(4, BodyKeyFrame()), UInt(4), UInt(8), Leaf(QUEUE_TIME),
            UInt(4), Times(4, UInt(1)), Bounded(0, 8)])
  }

  function ActionState(): Schema {
    Struct([UInt(1), Leaf(UNIT5), UInt(4), Leaf(UNIT5), UInt(4), UInt(4), Times(9, Flag), Bounded(0, 0x1401),
            Bounded(-1, 8), Bounded(-1, 8), UInt(1)])
  }

  function EnergyState(): Schema {
    Struct([Bounded(0, 14), Leaf(UNIT6), Flag, Leaf(CurrentEnergy(0)), Leaf(ENERGY_VELOCITY), Flag, Leaf(CHARGE),
            Leaf(CHARGE), Times(5, Flag), UInt(4), Leaf(ENERGY_SCALAR), Leaf(ENERGY_FACTOR), UInt(4)])
  }

  function AnimState(): Schema {
    Struct([UInt(4), UInt(8), Leaf(FRAME_TIME), UInt(4), Times(4, UInt(1)), Bounded(0, 8), Bounded(0, 10),
            Times(3, Leaf(UNIT5)), Flag, Times(5, Leaf(UNIT8)), UInt(4), Leaf(UNIT4)])
  }

  function OutfitState(): Schema {
    Struct([Times(10, Struct([UInt(4), Bounded(0, 3), Bounded(0, 3), Bounded(0, 3), Text(64)])),
            Leaf(OUTFIT_SCALAR0), Leaf(OUTFIT_SCALAR1), Bounded(0, 15), Bounded(0, 14), UInt(4), UInt(2)])
  }

  function SocialState(): Schema {
    Struct([Times(2, Flag), Times(3, UInt(1)), Times(2, Flag), Bounded(1, 2), Bounded(0, 3),
            Leaf(SOCIAL_SCALAR), UInt(1),
            Bounded(0, 2), Bounded(-4, 4), UInt(1)])
  }

  function WorldQuestState(): Schema {
    Struct([UInt(2), UInt(4), UInt(4), Flag, MaskedFlags(0x100, 0xff)])
  }

  /** playerState up to the slot table inside its tail. */
  function Head(): Schema {
    Struct([
      Bounded(0, 4), Vec(), NetState(), MoveHeader(), UInt(1), UInt(2), UInt(4), MoveState(),
      Counted(4, BodyKeyFrame()), QueuedState(), Bounded(0, 3), UInt(4), Vec(), ActionState(), EnergyState(),
      Vec(), Leaves(DIRECTION), AnimState(), Times(4, Flag), UInt(1), Leaf(UNIT4), UInt(4), UInt(1), Flag,
      Bounded(0, 3), Bounded(0, 3), Gated(Struct([UInt(1), Vec()])), Leaf(OFFSET_5198), Bounded(-1, 32), UInt(2),
      Times(2, UInt(1)), Bounded(0, 0x2a3), Bounded(0, 0x2a3), UInt(1), Bounded(0, 0x11), Times(4, Flag),
      Bounded(0, 0xd), UInt(1), UInt(1), Bounded(-1, 0x10), Bounded(-1, 8), Flag, Flag, Times(6, Vec()),
      UInt(1), Flag, UInt(1), Bounded(0, 2), Bounded(0, 2), OutfitState(), UInt(1), UInt(4), Bounded(0, 0xff),
      UInt(1), Counted(5, UInt(8)), UInt(4), UInt(2), UInt(1), Flag, Leaf(UNIT4), Counted(7, UInt(1)),
      SocialState(), WorldQuestState(), Flag, Times(4, UInt(2)), Flag,
      Times(16, Times(3, Flag)), UInt(4)])
  }

  /** The rest of the tail and of playerState. */
  function Rest(): Schema {
    Struct([
      Flag, Bounded(0, 25), UInt(1), UInt(4), Flag, Vec(), UInt(4), UInt(4),
      UInt(4), Raw(16), UInt(4), Raw(16), UInt(1), UInt(8), UInt(4), Times(4, Flag), Vec(), Times(4, Flag), Raw(32),
      Times(10, UInt(1))])
  }

  // ----- The slot table: column passes over per-slot records -----

  /** kind selects whether an active slot has an attachment; position is its three 6-bit codes. */
  datatype Attachment = Attachment(flag0: bool, flag1: bool, x: int, y: int, z: int)

  datatype SlotA =
    | IdleA
    | ActiveA(flag0: bool, flag1: bool, attached: Option<Attachment>, value0: int, value1: int)

  datatype SlotB = IdleB | ActiveB(flag: bool)

  /** header: countA and h0 to h5. */
  datatype SlotTable = SlotTable(header: Value, slotsA: seq<SlotA>, slotsB: seq<SlotB>)

  function HeaderLayout(): Schema {
    Struct([Bounded(0, 3), Bounded(0, 0xa1), Bounded(0, 7), Bounded(0, 0xa1), Bounded(0, 0x200), Bounded(0, 0x200),
            Bounded(0, 0xa1)])
  }

  function Counts(): Schema {
    Struct([UInt(1), UInt(1)])
  }

  function FlagPair(): Schema {
    Struct([Flag, Flag])
  }

  function AttachmentLayout(): Schema {
    Struct([Flag, Flag, Leaf(SLOT_POSITION), Leaf(SLOT_POSITION), Leaf(SLOT_POSITION)])
  }

  function ValuePair(): Schema {
    Struct([Bounded(0, 0x7f), Bounded(0, 0x7f)])
  }

  function CountsOf(t: SlotTable): Value {
    Tuple([Num(|t.slotsA|), Num(|t.slotsB|)])
  }

  /** The columns of the A slots, in slot order; each holds a cell per slot its pass visits. */
  datatype ColumnsA = ColumnsA(
    actives: seq<Value>, kinds: seq<Value>, flags: seq<Value>, attachments: seq<Value>, values: seq<Value>)

  datatype ColumnsB = ColumnsB(actives: seq<Value>, flags: seq<Value>)

  function FromAttachment(a: Attachment): Value {
    Tuple([Flg(a.flag0), Flg(a.flag1), Num(a.x), Num(a.y), Num(a.z)])
  }

  function PutA(slot: SlotA, c: ColumnsA): ColumnsA {
    match slot
    case IdleA => c.(actives := [Flg(false)] + c.actives)
    case ActiveA(flag0, flag1, attached, value0, value1) =>
      ColumnsA(
        [Flg(true)] + c.actives,
        [Flg(attached.Some?)] + c.kinds,
        [Tuple([Flg(flag0), Flg(flag1)])] + c.flags,
        if attached.Some? then [FromAttachment(attached.value)] + c.attachments else c.attachments,
        [Tuple([Num(value0), Num(value1)])] + c.values)
  }

  function SplitA(slots: seq<SlotA>): ColumnsA {
    if slots == [] then ColumnsA([], [], [], [], []) else PutA(slots[0], SplitA(slots[1..]))
  }

  function PutB(slot: SlotB, c: ColumnsB): ColumnsB {
    match slot
    case IdleB => c.(actives := [Flg(false)] + c.actives)
    case ActiveB(flag) => ColumnsB([Flg(true)] + c.actives, [Flg(flag)] + c.flags)
  }

  function SplitB(slots: seq<SlotB>): ColumnsB {
    if slots == [] then ColumnsB([], []) else PutB(slots[0], SplitB(slots[1..]))
  }

  /** One pass of the table: a layout per listed cell. */
  datatype Pass = Pass(elem: Schema, cells: seq<Value>)

  function PassesAfterCounts(t: SlotTable): seq<Pass> {
    var a, b := SplitA(t.slotsA), SplitB(t.slotsB);
    [Pass(Flag, a.actives), Pass(Flag, b.actives), Pass(Flag, a.kinds), Pass(Flag, b.flags),
     Pass(FlagPair(), a.flags), Pass(AttachmentLayout(), a.attachments), Pass(ValuePair(), a.values)]
  }

  function EmitPasses(passes: seq<Pass>, pos: nat): Option<seq<bool>>
    decreases |passes|
  {
    if passes == [] then Some([])
    else
      match EmitEach(passes[0].elem, passes[0].cells, pos)
      case None => None
      case Some(first) => Then(first, EmitPasses(passes[1..], pos + |first|))
  }

  /** The columns of the slots as they stand. */
  function EmitCodes(t: SlotTable, pos: nat): Option<seq<bool>> {
    match Emit(Struct([HeaderLayout(), Counts()]), Tuple([t.header, CountsOf(t)]), pos)
    case None => None
    case Some(first) => Then(first, EmitPasses(PassesAfterCounts(t), pos + |first|))
  }

  // ----- Reading the table back -----

  function IsTrue(v: Value): bool {
    v == Flg(true)
  }

  function CountTrue(vs: seq<Value>): nat {
    if vs == [] then 0 else (if IsTrue(vs[0]) then 1 else 0) + CountTrue(vs[1..])
  }

  datatype Cells = NoCells | Cells(vs: seq<Value>, pos: nat)

  function ReadPass(elem: Schema, n: nat, bits: seq<bool>, pos: nat): Cells {
    match ParseEach(elem, n, bits, pos)
    case Done(Tuple(vs), p) => Cells(vs, p)
    case _ => NoCells
  }

  const PASSES := 7

  /** The pass after the given columns: its layout, and how many cells the columns announce. */
  function NextPass(nA: nat, nB: nat, columns: seq<seq<Value>>): (Schema, nat)
    requires |columns| < PASSES
  {
    match |columns|
    case 0 => (Flag, nA)
    case 1 => (Flag, nB)
    case 2 => (Flag, CountTrue(columns[0]))
    case 3 => (Flag, CountTrue(columns[1]))
    case 4 => (FlagPair(), CountTrue(columns[0]))
    case 5 => (AttachmentLayout(), CountTrue(columns[2]))
    case _ => (ValuePair(), CountTrue(columns[0]))
  }

  datatype Columns = NoColumns | Columns(all: seq<seq<Value>>, pos: nat)

  function ReadPasses(nA: nat, nB: nat, columns: seq<seq<Value>>, bits: seq<bool>, pos: nat): (r: Columns)
    requires |columns| <= PASSES
    ensures r.Columns? ==> |r.all| == PASSES
    decreases PASSES - |columns|
  {
    if |columns| == PASSES then Columns(columns, pos)
    else
      var (elem, n) := NextPass(nA, nB, columns);
      match ReadPass(elem, n, bits, pos)
      case NoCells => NoColumns
      case Cells(vs, p) => ReadPasses(nA, nB, columns + [vs], bits, p)
  }

  /** Column j of a row, as a flag or a number. */
  function FlagAt(row: Value, j: nat): bool {
    row.Tuple? && j < |row.vs| && IsTrue(row.vs[j])
  }

  function NumAt(row: Value, j: nat): int {
    if row.Tuple? && j < |row.vs| && row.vs[j].Num? then row.vs[j].n else 0
  }

  function ToAttachment(row: Value): Attachment {
    Attachment(FlagAt(row, 0), FlagAt(row, 1), NumAt(row, 2), NumAt(row, 3), NumAt(row, 4))
  }

  /** Deal the columns back to the slots they came from; None when the columns do not match up. */
  function JoinA(c: ColumnsA): Option<seq<SlotA>>
    decreases |c.actives|
  {
    if c.actives == [] then Some([])
    else if !IsTrue(c.actives[0]) then ConsSlot(IdleA, JoinA(c.(actives := c.actives[1..])))
    else if c.kinds == [] || c.flags == [] || c.values == [] || (IsTrue(c.kinds[0]) && c.attachments == []) then None
    else
      var near := IsTrue(c.kinds[0]);
      var attached := if near then Some(ToAttachment(c.attachments[0])) else None;
      var slot := ActiveA(FlagAt(c.flags[0], 0), FlagAt(c.flags[0], 1), attached,
                          NumAt(c.values[0], 0), NumAt(c.values[0], 1));
      ConsSlot(slot, JoinA(ColumnsA(c.actives[1..], c.kinds[1..], c.flags[1..],
                                    if near then c.attachments[1..] else c.attachments, c.values[1..])))
  }

  function ConsSlot<T>(slot: T, rest: Option<seq<T>>): Option<seq<T>> {
    match rest
    case None => None
    case Some(slots) => Some([slot] + slots)
  }

  function JoinB(c: ColumnsB): Option<seq<SlotB>>
    decreases |c.actives|
  {
    if c.actives == [] then Some([])
    else if !IsTrue(c.actives[0]) then ConsSlot(IdleB, JoinB(c.(actives := c.actives[1..])))
    else if c.flags == [] then None
    else ConsSlot(ActiveB(IsTrue(c.flags[0])), JoinB(ColumnsB(c.actives[1..], c.flags[1..])))
  }

  datatype TableRead = BadTable | TableRead(table: SlotTable, pos: nat)

  function AssembleTable(header: Value, columns: seq<seq<Value>>, pos: nat): TableRead
    requires |columns| == PASSES
  {
    match JoinA(ColumnsA(columns[0], columns[2], columns[4], columns[5], columns[6]))
    case None => BadTable
    case Some(slotsA) =>
      match JoinB(ColumnsB(columns[1], columns[3]))
      case None => BadTable
      case Some(slotsB) => TableRead(SlotTable(header, slotsA, slotsB), pos)
  }

  function ParseTable(bits: seq<bool>, pos: nat): TableRead {
    match Parse(Struct([HeaderLayout(), Counts()]), bits, pos)
    case Failed => BadTable
    case Done(v, p) =>
      if !(v.Tuple? && |v.vs| == 2) then BadTable
      else
        var nA, nB := NumAt(v.vs[1], 0), NumAt(v.vs[1], 1);
        if nA < 0 || nB < 0 then BadTable
        else
          match ReadPasses(nA, nB, [], bits, p)
          case NoColumns => BadTable
          case Columns(all, p') => AssembleTable(v.vs[0], all, p')
  }

  // ----- The table survives -----

  predicate CodesFit(slot: SlotA) {
    slot.ActiveA? && slot.attached.Some? ==>
      slot.attached.value.x < 64 && slot.attached.value.y < 64 && slot.attached.value.z < 64
  }

  /** Codes no wider than their field, counts that fit a byte. */
  predicate TableCanonical(t: SlotTable) {
    && Canonical(HeaderLayout(), t.header)
    && |t.slotsA| < 256 && |t.slotsB| < 256
    && forall slot :: slot in t.slotsA ==> CodesFit(slot)
  }

  lemma JoinPutA(slot: SlotA, c: ColumnsA)
    ensures JoinA(PutA(slot, c)) == ConsSlot(slot, JoinA(c))
  {
    var p := PutA(slot, c);
    assert p.actives[1..] == c.actives;
    if slot.ActiveA? {
      assert p.kinds[1..] == c.kinds && p.flags[1..] == c.flags && p.values[1..] == c.values;
      if slot.attached.Some? {
        assert p.attachments[1..] == c.attachments;
      }
    }
  }

  lemma JoinPutB(slot: SlotB, c: ColumnsB)
    ensures JoinB(PutB(slot, c)) == ConsSlot(slot, JoinB(c))
  {
    var p := PutB(slot, c);
    assert p.actives[1..] == c.actives;
    if slot.ActiveB? {
      assert p.flags[1..] == c.flags;
    }
  }

  /** Splitting into columns loses nothing. */
  lemma {:induction false} JoinSplitA(slots: seq<SlotA>)
    ensures JoinA(SplitA(slots)) == Some(slots)
  {
    if slots != [] {
      JoinSplitA(slots[1..]);
      JoinPutA(slots[0], SplitA(slots[1..]));
      assert slots == [slots[0]] + slots[1..];
    }
  }

  lemma {:induction false} JoinSplitB(slots: seq<SlotB>)
    ensures JoinB(SplitB(slots)) == Some(slots)
  {
    if slots != [] {
      JoinSplitB(slots[1..]);
      JoinPutB(slots[0], SplitB(slots[1..]));
      assert slots == [slots[0]] + slots[1..];
    }
  }

  lemma CountTrueCons(v: Value, vs: seq<Value>)
    ensures CountTrue([v] + vs) == (if IsTrue(v) then 1 else 0) + CountTrue(vs)
  {
    assert ([v] + vs)[1..] == vs;
  }

  /** Each pass has as many cells as the passes before it announce. */
  lemma {:induction false} ColumnLengthsA(slots: seq<SlotA>)
    ensures var c := SplitA(slots);
            && |c.actives| == |slots|
            && CountTrue(c.actives) == |c.kinds| == |c.flags| == |c.values|
            && CountTrue(c.kinds) == |c.attachments|
  {
    if slots != [] {
      ColumnLengthsA(slots[1..]);
      var c := SplitA(slots[1..]);
      CountTrueCons(Flg(slots[0].ActiveA?), c.actives);
      if slots[0].ActiveA? {
        CountTrueCons(Flg(slots[0].attached.Some?), c.kinds);
      }
    }
  }

  lemma {:induction false} ColumnLengthsB(slots: seq<SlotB>)
    ensures |SplitB(slots).actives| == |slots|
    ensures CountTrue(SplitB(slots).actives) == |SplitB(slots).flags|
  {
    if slots != [] {
      ColumnLengthsB(slots[1..]);
      CountTrueCons(Flg(slots[0].ActiveB?), SplitB(slots[1..]).actives);
    }
  }

  predicate CellsCanonical(pass: Pass) {
    forall x :: x in pass.cells ==> Canonical(pass.elem, x)
  }

  lemma RowsCanonical(f0: bool, f1: bool, v0: int, v1: int)
    ensures Canonical(FlagPair(), Tuple([Flg(f0), Flg(f1)]))
    ensures Canonical(ValuePair(), Tuple([Num(v0), Num(v1)]))
  {
    PairCanonical(Flag, Flag, Flg(f0), Flg(f1));
    PairCanonical(Bounded(0, 0x7f), Bounded(0, 0x7f), Num(v0), Num(v1));
  }

  lemma AttachmentCanonical(a: Attachment)
    requires a.x < 64 && a.y < 64 && a.z < 64
    ensures Canonical(AttachmentLayout(), FromAttachment(a))
  {
    var code := BitField(6);
    assert Canonical(code, Num(a.x)) && Canonical(code, Num(a.y)) && Canonical(code, Num(a.z)) by {
      assert Pow2(6) == 64 by { assert Pow2(3) == 8; }
    }
    assert Canonical(Flag, Flg(a.flag0)) && Canonical(Flag, Flg(a.flag1));
    assert AllCanonical([], []);
    hide Canonical, AllCanonical;
    AllCanonicalCons(code, [], Num(a.z), []);
    AllCanonicalCons(code, [code], Num(a.y), [Num(a.z)]);
    AllCanonicalCons(code, [code] + [code], Num(a.x), [Num(a.y)] + [Num(a.z)]);
    var codes, nums := [code, code, code], [Num(a.x), Num(a.y), Num(a.z)];
    assert [code] + ([code] + [code]) == codes && [Num(a.x)] + ([Num(a.y)] + [Num(a.z)]) == nums;
    AllCanonicalCons(Flag, codes, Flg(a.flag1), nums);
    AllCanonicalCons(Flag, [Flag] + codes, Flg(a.flag0), [Flg(a.flag1)] + nums);
    assert [Flag] + ([Flag] + codes) == AttachmentLayout().fields;
    assert [Flg(a.flag0)] + ([Flg(a.flag1)] + nums) == FromAttachment(a).vs;
    StructCanonical(AttachmentLayout().fields, FromAttachment(a).vs);
  }

  lemma StructCanonical(fields: seq<Schema>, vs: seq<Value>)
    requires AllCanonical(fields, vs)
    ensures Canonical(Struct(fields), Tuple(vs))
  {}

  lemma {:induction false} ColumnsCanonical(slots: seq<SlotA>)
    requires forall slot :: slot in slots ==> CodesFit(slot)
    ensures var c := SplitA(slots);
            && CellsCanonical(Pass(FlagPair(), c.flags))
            && CellsCanonical(Pass(AttachmentLayout(), c.attachments))
            && CellsCanonical(Pass(ValuePair(), c.values))
  {
    hide Canonical, FlagPair, AttachmentLayout, ValuePair;
    if slots != [] {
      ColumnsCanonical(slots[1..]);
      assert CodesFit(slots[0]);
      match slots[0]
      case IdleA =>
      case ActiveA(flag0, flag1, attached, value0, value1) =>
        RowsCanonical(flag0, flag1, value0, value1);
        if attached.Some? {
          AttachmentCanonical(attached.value);
        }
    }
  }

  lemma AllPassesCanonical(t: SlotTable)
    requires TableCanonical(t)
    ensures forall i :: 0 <= i < PASSES ==> CellsCanonical(PassesAfterCounts(t)[i])
  {
    hide SplitA, SplitB, FlagPair, AttachmentLayout, ValuePair;
    ColumnsCanonical(t.slotsA);
  }

  /** The columns before a pass announce exactly its layout and its number of cells. */
  lemma PassAnnounced(t: SlotTable, columns: seq<seq<Value>>)
    requires |columns| < PASSES
    requires forall j :: 0 <= j < |columns| ==> columns[j] == PassesAfterCounts(t)[j].cells
    ensures var pass := PassesAfterCounts(t)[|columns|];
            NextPass(|t.slotsA|, |t.slotsB|, columns) == (pass.elem, |pass.cells|)
  {
    ColumnLengthsA(t.slotsA);
    ColumnLengthsB(t.slotsB);
  }

  function CellsOf(passes: seq<Pass>): (r: seq<seq<Value>>)
    ensures |r| == |passes|
  {
    seq(|passes|, i requires 0 <= i < |passes| => passes[i].cells)
  }

  lemma {:induction false} PassesRoundTrip(t: SlotTable, i: nat, bits: seq<bool>, pos: nat)
    requires TableCanonical(t) && i <= PASSES
    requires EmitPasses(PassesAfterCounts(t)[i..], pos).Some?
    requires Holds(bits, pos, EmitPasses(PassesAfterCounts(t)[i..], pos).value)
    ensures ReadPasses(|t.slotsA|, |t.slotsB|, CellsOf(PassesAfterCounts(t)[..i]), bits, pos) ==
            Columns(CellsOf(PassesAfterCounts(t)), pos + |EmitPasses(PassesAfterCounts(t)[i..], pos).value|)
    decreases PASSES - i
  {
    hide PassesAfterCounts, NextPass, EmitEach, ParseEach, Canonical, TableCanonical;
    PassCount(t);
    var all := PassesAfterCounts(t);
    if i == PASSES {
      assert all[..i] == all;
    } else {
      var pass := all[i];
      var cells := CellsOf(all[..i]);
      assert all[i..][1..] == all[i + 1..];
      var first := EmitEach(pass.elem, pass.cells, pos).value;
      HoldsSplit(bits, pos, first, EmitPasses(all[i + 1..], pos + |first|).value);
      AllPassesCanonical(t);
      assert CellsCanonical(pass);
      EachRoundTrip(pass.elem, pass.cells, bits, pos);
      PassAnnounced(t, cells);
      assert CellsOf(all[..i + 1]) == cells + [pass.cells];
      PassesRoundTrip(t, i + 1, bits, pos + |first|);
    }
  }

  lemma PassCount(t: SlotTable)
    ensures |PassesAfterCounts(t)| == PASSES
  {}

  /** The multi-pass table: reading the columns of the slots returns the same per-slot records. */
  lemma CodesRoundTrip(t: SlotTable, bits: seq<bool>, pos: nat)
    requires TableCanonical(t) && EmitCodes(t, pos).Some?
    requires Holds(bits, pos, EmitCodes(t, pos).value)
    ensures ParseTable(bits, pos) == TableRead(t, pos + |EmitCodes(t, pos).value|)
  {
    hide Emit, Parse, Canonical, HeaderLayout, Counts, PassesAfterCounts, NextPass;
    var s, v := Struct([HeaderLayout(), Counts()]), Tuple([t.header, CountsOf(t)]);
    var first := Emit(s, v, pos).value;
    var p := pos + |first|;
    var all := PassesAfterCounts(t);
    HoldsSplit(bits, pos, first, EmitPasses(all, p).value);
    FrontCanonical(t);
    RoundTrip(s, v, bits, pos);
    PassCount(t);
    assert all[0..] == all && CellsOf(all[..0]) == [];
    PassesRoundTrip(t, 0, bits, p);
    AssembleInverse(t, p + |EmitPasses(all, p).value|);
  }

  lemma FrontCanonical(t: SlotTable)
    requires TableCanonical(t)
    ensures Canonical(Struct([HeaderLayout(), Counts()]), Tuple([t.header, CountsOf(t)]))
  {
    assert InWord(|t.slotsA|, 1) && InWord(|t.slotsB|, 1) by {
      assert Pow2(8) == 256 by { assert Pow2(4) == 16; }
    }
    hide InWord;
    PairCanonical(UInt(1), UInt(1), Num(|t.slotsA|), Num(|t.slotsB|));
    PairCanonical(HeaderLayout(), Counts(), t.header, CountsOf(t));
  }

  lemma AssembleInverse(t: SlotTable, pos: nat)
    ensures |CellsOf(PassesAfterCounts(t))| == PASSES
    ensures AssembleTable(t.header, CellsOf(PassesAfterCounts(t)), pos) == TableRead(t, pos)
  {
    JoinSplitA(t.slotsA);
    JoinSplitB(t.slotsB);
  }

  // ----- The clamp on writing -----

  function PositionOf(a: Attachment): P.Codes {
    P.Codes(a.x, a.y, a.z)
  }

  function ClampedAttachment(a: Attachment): Attachment {
    var c := P.Clamped(PositionOf(a));
    a.(x := c.x, y := c.y, z := c.z)
  }

  predicate Attached(slot: SlotA) {
    slot.ActiveA? && slot.attached.Some?
  }

  function ClampedSlot(slot: SlotA): SlotA {
    if Attached(slot) then slot.(attached := Some(ClampedAttachment(slot.attached.value))) else slot
  }

  function ClampedSlots(slots: seq<SlotA>): (r: seq<SlotA>)
    ensures |r| == |slots|
  {
    seq(|slots|, i requires 0 <= i < |slots| => ClampedSlot(slots[i]))
  }

  function ClampedTable(t: SlotTable): SlotTable {
    t.(slotsA := ClampedSlots(t.slotsA))
  }

  /** slotTable on a writer: attached positions are shortened to length four, then quantized. */
  function EmitTable(t: SlotTable, pos: nat): Option<seq<bool>> {
    EmitCodes(ClampedTable(t), pos)
  }

  predicate SlotKept(slot: SlotA) {
    Attached(slot) && P.AreCodes(PositionOf(slot.attached.value)) ==> P.Kept(PositionOf(slot.attached.value))
  }

  /** No attached position is moved by the clamp. */
  predicate PositionsKept(t: SlotTable) {
    forall slot :: slot in t.slotsA ==> SlotKept(slot)
  }

  lemma ClampedSlotIff(slot: SlotA)
    ensures ClampedSlot(slot) == slot <==> SlotKept(slot)
    ensures CodesFit(slot) ==> CodesFit(ClampedSlot(slot))
  {
    hide P.Clamped, P.Kept;
    if Attached(slot) {
      var c := PositionOf(slot.attached.value);
      if P.AreCodes(c) {
        P.ClampedIff(c);
      } else {
        P.OthersUnclamped(c);
      }
    }
  }

  lemma ClampedTableIff(t: SlotTable)
    ensures ClampedTable(t) == t <==> PositionsKept(t)
    ensures TableCanonical(t) ==> TableCanonical(ClampedTable(t))
  {
    hide ClampedSlot, SlotKept, CodesFit, Canonical, HeaderLayout;
    forall i | 0 <= i < |t.slotsA|
      ensures ClampedSlot(t.slotsA[i]) == t.slotsA[i] <==> SlotKept(t.slotsA[i])
      ensures CodesFit(t.slotsA[i]) ==> CodesFit(ClampedSlot(t.slotsA[i]))
    {
      ClampedSlotIff(t.slotsA[i]);
    }
    var slots := ClampedSlots(t.slotsA);
    assert forall i :: 0 <= i < |slots| ==> slots[i] == ClampedSlot(t.slotsA[i]);
    if PositionsKept(t) {
      assert slots == t.slotsA;
    }
  }

  /**
   * The table written and read: the slots come back with their attached positions shortened, and
   * so unchanged exactly when the clamp moves none of them.
   */
  lemma TableRoundTrip(t: SlotTable, bits: seq<bool>, pos: nat)
    requires TableCanonical(t) && EmitTable(t, pos).Some?
    requires Holds(bits, pos, EmitTable(t, pos).value)
    ensures ParseTable(bits, pos) == TableRead(ClampedTable(t), pos + |EmitTable(t, pos).value|)
    ensures ClampedTable(t) == t <==> PositionsKept(t)
  {
    hide TableCanonical, EmitCodes, ParseTable, ClampedTable, PositionsKept;
    ClampedTableIff(t);
    CodesRoundTrip(ClampedTable(t), bits, pos);
  }

  // ----- The clamp changes no sizes -----

  function CodeFields(): seq<Schema> {
    [Leaf(SLOT_POSITION), Leaf(SLOT_POSITION), Leaf(SLOT_POSITION)]
  }

  function CodeValues(a: Attachment): seq<Value> {
    [Num(a.x), Num(a.y), Num(a.z)]
  }

  lemma CodesEmit(a: Attachment, pos: nat)
    ensures EmitAll(CodeFields(), CodeValues(a), pos).Some? <==> P.AreCodes(PositionOf(a))
    ensures P.AreCodes(PositionOf(a)) ==> |EmitAll(CodeFields(), CodeValues(a), pos).value| == 18
  {
    var leaf := Leaf(SLOT_POSITION);
    CodeEmits(a.x, pos);
    CodeEmits(a.y, pos + 6);
    CodeEmits(a.z, pos + 12);
    hide Emit, EmitAll, Leaf;
    EmitNothing(pos + 18);
    EmitCons(leaf, [], Num(a.z), [], pos + 12);
    EmitCons(leaf, [leaf] + [], Num(a.y), [Num(a.z)] + [], pos + 6);
    EmitCons(leaf, [leaf] + ([leaf] + []), Num(a.x), [Num(a.y)] + ([Num(a.z)] + []), pos);
    assert [leaf] + ([leaf] + ([leaf] + [])) == CodeFields();
    assert [Num(a.x)] + ([Num(a.y)] + ([Num(a.z)] + [])) == CodeValues(a);
  }

  lemma TwoFlags(f0: bool, f1: bool, fields: seq<Schema>, vs: seq<Value>, pos: nat)
    requires |fields| == |vs|
    ensures EmitAll([Flag] + ([Flag] + fields), [Flg(f0)] + ([Flg(f1)] + vs), pos) ==
            Then([f0], Then([f1], EmitAll(fields, vs, pos + 2)))
  {
    assert Emit(Flag, Flg(f0), pos) == Some([f0]) && Emit(Flag, Flg(f1), pos + 1) == Some([f1]);
    hide Emit, EmitAll;
    EmitCons(Flag, fields, Flg(f1), vs, pos + 1);
    EmitCons(Flag, [Flag] + fields, Flg(f0), [Flg(f1)] + vs, pos);
  }

  lemma AttachmentParts(a: Attachment)
    ensures AttachmentLayout() == Struct([Flag] + ([Flag] + CodeFields()))
    ensures FromAttachment(a) == Tuple([Flg(a.flag0)] + ([Flg(a.flag1)] + CodeValues(a)))
    ensures |CodeFields()| == |CodeValues(a)|
  {}

  /** Whatever its codes, an attachment takes twenty bits. */
  lemma AttachmentEmits(a: Attachment, pos: nat)
    ensures Emit(AttachmentLayout(), FromAttachment(a), pos).Some? <==> P.AreCodes(PositionOf(a))
    ensures P.AreCodes(PositionOf(a)) ==> |Emit(AttachmentLayout(), FromAttachment(a), pos).value| == 20
  {
    hide Emit, EmitAll, CodeFields, CodeValues, FromAttachment, AttachmentLayout, P.AreCodes;
    AttachmentParts(a);
    CodesEmit(a, pos + 2);
    TwoFlags(a.flag0, a.flag1, CodeFields(), CodeValues(a), pos);
    EmitStruct([Flag] + ([Flag] + CodeFields()), [Flg(a.flag0)] + ([Flg(a.flag1)] + CodeValues(a)), pos);
  }

  lemma EmitNothing(pos: nat)
    ensures EmitAll([], [], pos) == Some([])
  {}

  lemma EmitStruct(fields: seq<Schema>, vs: seq<Value>, pos: nat)
    ensures Emit(Struct(fields), Tuple(vs), pos) == EmitAll(fields, vs, pos)
  {}

  lemma EmitCons(s: Schema, fields: seq<Schema>, v: Value, vs: seq<Value>, pos: nat)
    requires |fields| == |vs|
    ensures EmitAll([s] + fields, [v] + vs, pos) ==
            match Emit(s, v, pos)
            case None => None
            case Some(first) => Then(first, EmitAll(fields, vs, pos + |first|))
  {
    hide Emit;
    assert ([s] + fields)[1..] == fields && ([v] + vs)[1..] == vs;
  }

  lemma CodeEmits(c: int, pos: nat)
    ensures Emit(Leaf(SLOT_POSITION), Num(c), pos).Some? <==> P.IsCode(c)
    ensures P.IsCode(c) ==> |Emit(Leaf(SLOT_POSITION), Num(c), pos).value| == 6
  {
    assert Pow2(6) == 64 by { assert Pow2(3) == 8; }
    hide Pow2;
  }

  predicate SlotCoded(slot: SlotA) {
    Attached(slot) ==> P.AreCodes(PositionOf(slot.attached.value))
  }

  lemma SplitCons(slots: seq<SlotA>)
    requires slots != []
    ensures SplitA(slots).attachments ==
            (if Attached(slots[0]) then [FromAttachment(slots[0].attached.value)] else []) +
            SplitA(slots[1..]).attachments
  {}

  lemma {:induction false} AttachmentsEmit(slots: seq<SlotA>, pos: nat)
    ensures var cells := SplitA(slots).attachments;
            var out := EmitEach(AttachmentLayout(), cells, pos);
            && (out.Some? <==> forall slot :: slot in slots ==> SlotCoded(slot))
            && (out.Some? ==> |out.value| == 20 * |cells|)
    decreases |slots|
  {
    hide Emit, AttachmentLayout, SplitA, FromAttachment, P.AreCodes;
    if slots == [] {
      assert SplitA(slots).attachments == [] by { NoAttachments(); }
    } else {
      var rest := SplitA(slots[1..]).attachments;
      SplitCons(slots);
      AllCodedCons(slots);
      if Attached(slots[0]) {
        var a := slots[0].attached.value;
        AttachmentEmits(a, pos);
        assert ([FromAttachment(a)] + rest)[1..] == rest;
        AttachmentsEmit(slots[1..], pos + 20);
      } else {
        assert [] + rest == rest;
        AttachmentsEmit(slots[1..], pos);
      }
    }
  }

  lemma AllCodedCons(slots: seq<SlotA>)
    requires slots != []
    ensures (forall slot :: slot in slots ==> SlotCoded(slot)) <==>
            SlotCoded(slots[0]) && forall slot :: slot in slots[1..] ==> SlotCoded(slot)
  {
    assert slots == [slots[0]] + slots[1..];
  }

  lemma NoAttachments()
    ensures SplitA([]).attachments == []
  {}

  /** Clamping changes the attachment cells and no other column. */
  lemma {:induction false} ClampedColumns(slots: seq<SlotA>)
    ensures var c, d := SplitA(slots), SplitA(ClampedSlots(slots));
            d == c.(attachments := d.attachments) && |d.attachments| == |c.attachments|
  {
    hide P.Clamped;
    if slots != [] {
      ClampedColumns(slots[1..]);
      assert ClampedSlots(slots)[1..] == ClampedSlots(slots[1..]);
    }
  }

  lemma ClampedCoded(slots: seq<SlotA>)
    ensures (forall slot :: slot in ClampedSlots(slots) ==> SlotCoded(slot)) <==>
            (forall slot :: slot in slots ==> SlotCoded(slot))
  {
    hide ClampedSlot, SlotCoded;
    var clamped := ClampedSlots(slots);
    forall i | 0 <= i < |slots|
      ensures SlotCoded(clamped[i]) <==> SlotCoded(slots[i])
    {
      SlotStaysCoded(slots[i]);
    }
    assert forall i :: 0 <= i < |slots| ==> slots[i] in slots && clamped[i] in clamped;
  }

  lemma SlotStaysCoded(slot: SlotA)
    ensures SlotCoded(ClampedSlot(slot)) <==> SlotCoded(slot)
  {
    hide P.Clamped, P.AreCodes;
    if Attached(slot) && !P.AreCodes(PositionOf(slot.attached.value)) {
      P.OthersUnclamped(PositionOf(slot.attached.value));
    }
  }

  /** Passes that differ in one column, of the same size wherever it stands, take as many bits. */
  lemma {:induction false} SamePassSizes(a: seq<Pass>, b: seq<Pass>, k: nat, pos: nat)
    requires |a| == |b| && forall i :: 0 <= i < |a| && i != k ==> a[i] == b[i]
    requires k < |a| ==> forall p: nat ::
               SameSize(EmitEach(a[k].elem, a[k].cells, p), EmitEach(b[k].elem, b[k].cells, p))
    ensures SameSize(EmitPasses(a, pos), EmitPasses(b, pos))
    decreases |a|
  {
    hide EmitEach;
    if a != [] {
      var first := EmitEach(a[0].elem, a[0].cells, pos);
      assert SameSize(first, EmitEach(b[0].elem, b[0].cells, pos));
      if first.Some? {
        SamePassSizes(a[1..], b[1..], if k > 0 then k - 1 else |a| - 1, pos + |first.value|);
      }
    }
  }

  predicate SameSize(a: Option<seq<bool>>, b: Option<seq<bool>>) {
    (a.Some? <==> b.Some?) && (a.Some? ==> |a.value| == |b.value|)
  }

  lemma AttachmentPassSizes(slots: seq<SlotA>, p: nat)
    ensures SameSize(EmitEach(AttachmentLayout(), SplitA(ClampedSlots(slots)).attachments, p),
                     EmitEach(AttachmentLayout(), SplitA(slots).attachments, p))
  {
    hide EmitEach, SplitA, ClampedSlots, SlotCoded, AttachmentLayout;
    AttachmentsEmit(slots, p);
    AttachmentsEmit(ClampedSlots(slots), p);
    ClampedCoded(slots);
    ClampedColumns(slots);
  }

  /** So a table is accepted, and takes the bits, that its codes would as they stand. */
  lemma ClampKeepsSize(t: SlotTable, pos: nat)
    ensures SameSize(EmitTable(t, pos), EmitCodes(t, pos))
  {
    hide Emit, EmitEach, EmitPasses, HeaderLayout, Counts, SplitA, SplitB, ClampedSlots, AttachmentLayout, FlagPair,
         ValuePair;
    var front := Emit(Struct([HeaderLayout(), Counts()]), Tuple([t.header, CountsOf(t)]), pos);
    if front.Some? {
      var a, b := PassesAfterCounts(ClampedTable(t)), PassesAfterCounts(t);
      ClampedColumns(t.slotsA);
      forall p: nat
        ensures SameSize(EmitEach(a[5].elem, a[5].cells, p), EmitEach(b[5].elem, b[5].cells, p))
      {
        AttachmentPassSizes(t.slotsA, p);
      }
      SamePassSizes(a, b, 5, pos + |front.value|);
    }
  }
}
