/** encodePlayerState and decodePlayerState over the writer and reader objects. */
module PlayerStateCodec {
  import opened Octets
  import opened Options
  import opened BitStreams
  import opened Schemas
  import opened SnapshotLimits
  import opened PlayerStates
  import opened PlayerNames
  import NativeIos
  import W = BinaryWriters
  import R = BinaryReaders

  /**
   * The traversal's field tree: what precedes the slot table, the table, what follows. Quantized
   * leaves are their codes, and names, which all stand in the head, the UTF-8 bytes of their strings.
   */
  datatype State = State(head: Value, table: SlotTable, rest: Value)

  function EmitState(st: State): Option<seq<bool>> {
    match Emit(Head(), st.head, 0)
    case None => None
    case Some(head) =>
      match EmitTable(st.table, |head|)
      case None => None
      case Some(table) => Then(head, Then(table, Emit(Rest(), st.rest, |head| + |table|)))
  }

  datatype StateRead = BadState | StateRead(state: State, pos: nat)

  function ParseState(bits: seq<bool>): StateRead {
    match Parse(Head(), bits, 0)
    case Failed => BadState
    case Done(head, p) =>
      match ParseTable(bits, p)
      case BadTable => BadState
      case TableRead(table, p') =>
        match Parse(Rest(), bits, p')
        case Failed => BadState
        case Done(rest, end) => StateRead(State(head, table, rest), end)
  }

  predicate StateCanonical(st: State) {
    Canonical(Head(), st.head) && TableCanonical(st.table) && Canonical(Rest(), st.rest)
  }

  /** The fields as a writer quantizes them: positions too long for their slot are shortened. */
  function Clamped(st: State): State {
    st.(table := ClampedTable(st.table))
  }

  /**
   * Reading what the traversal wrote consumes exactly the bits written and returns the same tree
   * but for the positions that the writer shortened.
   */
  lemma StateRoundTrip(st: State, bits: seq<bool>)
    requires StateCanonical(st) && EmitState(st).Some?
    requires Holds(bits, 0, EmitState(st).value)
    ensures ParseState(bits) == StateRead(Clamped(st), |EmitState(st).value|)
    ensures Clamped(st) == st <==> PositionsKept(st.table)
  {
    hide Emit, EmitTable, Parse, ParseTable, Canonical, TableCanonical, Head, Rest, ClampedTable, PositionsKept;
    var head := Emit(Head(), st.head, 0).value;
    var table := EmitTable(st.table, |head|).value;
    var rest := Emit(Rest(), st.rest, |head| + |table|).value;
    HoldsSplit(bits, 0, head, table + rest);
    HoldsSplit(bits, |head|, table, rest);
    RoundTrip(Head(), st.head, bits, 0);
    TableRoundTrip(st.table, bits, |head|);
    RoundTrip(Rest(), st.rest, bits, |head| + |table|);
  }

  /** The fields a reader returns for a tree it parsed: each name as a string. */
  function Named(st: State): State {
    st.(head := Spelled(Head(), st.head))
  }

  /** Every name is valid UTF-8, as the bytes of a string are. */
  predicate WellNamed(st: State) {
    TextsWellFormed(Head(), st.head)
  }

  /** decodePlayerState: None for oversized, malformed or trailing data. */
  function Decode(bytes: seq<Byte>): Option<State> {
    if |bytes| > PLAYER_STATE_MAX_BYTES then None
    else
      match ParseState(Unpack(bytes))
      case BadState => None
      case StateRead(st, pos) => if 8 * |bytes| - pos > Padding(pos) then None else Some(Named(st))
  }

  /** Every buffer encodePlayerState returns for canonical fields decodes to those fields, as clamped. */
  lemma EncodedDecodes(st: State, bytes: seq<Byte>)
    requires StateCanonical(st) && WellNamed(st) && EmitState(st).Some?
    requires |bytes| <= PLAYER_STATE_MAX_BYTES
    requires Unpack(bytes) == EmitState(st).value + Falses(Padding(|EmitState(st).value|))
    ensures Decode(bytes) == Some(Clamped(st))
    ensures Clamped(st) == st <==> PositionsKept(st.table)
  {
    hide EmitState, ParseState, StateCanonical, Unpack, Head, ClampedTable, PositionsKept, Spelled, TextsWellFormed;
    StateRoundTrip(st, Unpack(bytes));
    SpelledIff(Head(), st.head);
  }

  method WriteTable(w: W.BinaryWriter, t: SlotTable) returns (ok: bool)
    requires w.Valid()
    modifies w, w.buffer
    ensures w.Valid() && (fresh(w.buffer) || w.buffer == old(w.buffer))
    ensures ok <==> EmitTable(t, |old(w.stream)|).Some?
    ensures ok ==> w.stream == old(w.stream) + EmitTable(t, |old(w.stream)|).value
  {
    hide Emit, HeaderLayout, Counts, PassesAfterCounts, EmitPasses, ClampedSlots;
    var clamped := ClampedTable(t);
    ok := NativeIos.WriteValue(w, Struct([HeaderLayout(), Counts()]), Tuple([clamped.header, CountsOf(clamped)]));
    if ok {
      ok := WritePasses(w, PassesAfterCounts(clamped));
    }
  }

  method WritePasses(w: W.BinaryWriter, passes: seq<Pass>) returns (ok: bool)
    requires w.Valid()
    modifies w, w.buffer
    ensures w.Valid() && (fresh(w.buffer) || w.buffer == old(w.buffer))
    ensures ok <==> EmitPasses(passes, |old(w.stream)|).Some?
    ensures ok ==> w.stream == old(w.stream) + EmitPasses(passes, |old(w.stream)|).value
    decreases |passes|
  {
    hide EmitEach;
    if passes == [] {
      return true;
    }
    ok := NativeIos.WriteEach(w, passes[0].elem, passes[0].cells);
    if ok {
      ok := WritePasses(w, passes[1..]);
    }
  }

  /**
   * encodePlayerState with fields. The writer's initial capacity is the size limit, so a writer
   * that had to grow (and may have lost a half-filled byte) always fails the size check.
   */
  method Encode(st: State) returns (r: Option<seq<Byte>>)
    ensures r.Some? <==> EmitState(st).Some? && BytesFor(|EmitState(st).value|) <= PLAYER_STATE_MAX_BYTES
    ensures r.Some? ==> |r.value| <= PLAYER_STATE_MAX_BYTES &&
                        Unpack(r.value) == EmitState(st).value + Falses(Padding(|EmitState(st).value|))
  {
    hide Emit, EmitTable, Head, Rest, Unpack, Padding, BytesFor;
    var w := new W.BinaryWriter(PLAYER_STATE_MAX_BYTES);
    var ok := NativeIos.WriteValue(w, Head(), st.head);
    if ok {
      ok := WriteTable(w, st.table);
    }
    if ok {
      ok := NativeIos.WriteValue(w, Rest(), st.rest);
    }
    if !ok {
      return None;
    }
    assert w.stream == EmitState(st).value;
    var encoded := w.ToBuffer();
    if |encoded| > PLAYER_STATE_MAX_BYTES {
      return None;
    }
    return Some(encoded);
  }

  method ReadPassCells(r: R.BinaryReader, elem: Schema, n: nat) returns (c: Cells)
    requires r.Valid()
    modifies r
    ensures r.Valid() && (c.Cells? ==> c.pos == r.Pos())
    ensures c == ReadPass(elem, n, r.Source(), old(r.Pos()))
  {
    hide ParseEach, Unpack;
    var p := NativeIos.ReadEach(r, elem, n);
    match p
    case Done(Tuple(vs), pos) => c := Cells(vs, pos);
    case _ => c := NoCells;
  }

  method ReadTable(r: R.BinaryReader) returns (t: TableRead)
    requires r.Valid()
    modifies r
    ensures r.Valid() && (t.TableRead? ==> t.pos == r.Pos())
    ensures t == ParseTable(r.Source(), old(r.Pos()))
  {
    hide Parse, Unpack, HeaderLayout, Counts, NextPass, ReadPass, JoinA, JoinB;
    var front := NativeIos.ReadValue(r, Struct([HeaderLayout(), Counts()]));
    if front == Failed || !(front.value.Tuple? && |front.value.vs| == 2) {
      return BadTable;
    }
    var nA, nB := NumAt(front.value.vs[1], 0), NumAt(front.value.vs[1], 1);
    if nA < 0 || nB < 0 {
      return BadTable;
    }
    var columns := ReadColumns(r, nA, nB);
    if columns == NoColumns {
      return BadTable;
    }
    t := AssembleTable(front.value.vs[0], columns.all, columns.pos);
  }

  method ReadColumns(r: R.BinaryReader, nA: nat, nB: nat) returns (c: Columns)
    requires r.Valid()
    modifies r
    ensures r.Valid() && (c.Columns? ==> c.pos == r.Pos())
    ensures c == ReadPasses(nA, nB, [], r.Source(), old(r.Pos()))
  {
    hide Unpack, NextPass, ReadPass;
    var columns: seq<seq<Value>> := [];
    while |columns| < PASSES
      invariant r.Valid() && |columns| <= PASSES
      invariant ReadPasses(nA, nB, columns, r.Source(), r.Pos()) == ReadPasses(nA, nB, [], r.Source(), old(r.Pos()))
      decreases PASSES - |columns|
    {
      var (elem, n) := NextPass(nA, nB, columns);
      var cells := ReadPassCells(r, elem, n);
      if cells == NoCells {
        return NoColumns;
      }
      columns := columns + [cells.vs];
    }
    return Columns(columns, 8 * r.offset + r.bitOffset);
  }

  method DecodeBuffer(bytes: seq<Byte>) returns (r: Option<State>)
    ensures r == Decode(bytes)
  {
    hide Parse, ParseTable, Head, Rest, Unpack, Named;
    if |bytes| > PLAYER_STATE_MAX_BYTES {
      return None;
    }
    var reader := new R.BinaryReader(bytes);
    var head := NativeIos.ReadValue(reader, Head());
    if head == Failed {
      return None;
    }
    var table := ReadTable(reader);
    if table == BadTable {
      return None;
    }
    var rest := NativeIos.ReadValue(reader, Rest());
    if rest == Failed {
      return None;
    }
    var paddingBits := if reader.bitOffset == 0 then 0 else 8 - reader.bitOffset;
    if reader.RemainingBits() > paddingBits {
      return None;
    }
    return Some(Named(State(head.value, table.table, rest.value)));
  }
}
