/** The NetLevelData message: src/protocol/types/NetLevelDataMsg.js. */
module NetLevelData {
  import opened Octets
  import opened Options
  import opened BitStreams
  import opened Schemas
  import opened SnapshotLimits
  import NativeIos
  import W = BinaryWriters
  import R = BinaryReaders

  datatype LevelMsg = LevelMsg(
    electedPlayer: int, levelId: int, unknown1: int, hasInitialData: bool,
    unknown2: int, unknown3: int, levelHash: int, mergeState: int, unknown5: int, unknown6: int,
    levelData: seq<Byte>)

  /** trailingBytes: what is left after the announced data. */
  datatype Decoded = Malformed | Decoded(msg: LevelMsg, trailingBytes: int)

  function Fields(): seq<Schema> {
    [UInt(1), UInt(4), UInt(2), Flag, UInt(2), UInt(1), UInt(4), UInt(1), UInt(2), UInt(2), UInt(2)]
  }

  function HeaderOf(m: LevelMsg): seq<Value> {
    [Num(m.electedPlayer), Num(m.levelId), Num(m.unknown1), Flg(m.hasInitialData), Num(m.unknown2), Num(m.unknown3),
     Num(m.levelHash), Num(m.mergeState), Num(m.unknown5), Num(m.unknown6), Num(|m.levelData|)]
  }

  function EmitMsg(m: LevelMsg): Option<seq<bool>> {
    if |m.levelData| > NET_LEVEL_DATA_MAX_BYTES then None
    else
      match EmitAll(Fields(), HeaderOf(m), 0)
      case None => None
      case Some(header) => Then(header, Emit(Raw(|m.levelData|), Blob(m.levelData), |header|))
  }

  function FromHeader(vs: seq<Value>, levelData: seq<Byte>): LevelMsg
    requires |vs| == 11 && vs[3].Flg? && forall i :: 0 <= i < 11 && i != 3 ==> vs[i].Num?
  {
    LevelMsg(vs[0].n, vs[1].n, vs[2].n, vs[3].b, vs[4].n, vs[5].n, vs[6].n, vs[7].n, vs[8].n, vs[9].n, levelData)
  }

  predicate IsHeader(vs: seq<Value>) {
    |vs| == 11 && vs[3].Flg? && forall i :: 0 <= i < 11 && i != 3 ==> vs[i].Num?
  }

  function Remaining(bytes: seq<Byte>, pos: nat): int {
    |bytes| - BytesFor(pos)
  }

  function DecodeMsg(bytes: seq<Byte>): Decoded {
    match ParseAll(Fields(), Unpack(bytes), 0)
    case Failed => Malformed
    case Done(v, pos) =>
      if !(v.Tuple? && IsHeader(v.vs)) || v.vs[10].n > NET_LEVEL_DATA_MAX_BYTES || v.vs[10].n < 0 then Malformed
      else if v.vs[10].n == 0 then Decoded(FromHeader(v.vs, []), Remaining(bytes, pos))
      else
        match ParseBytes(v.vs[10].n, Unpack(bytes), pos)
        case Failed => Malformed
        case Done(data, end) =>
          if data.Blob? then Decoded(FromHeader(v.vs, data.bytes), Remaining(bytes, end)) else Malformed
  }

  /** Every number as wide as its wire field. */
  predicate InRange(m: LevelMsg) {
    AllCanonical(Fields(), HeaderOf(m))
  }

  /** Decoding an encoded message returns it, with no trailing byte. */
  lemma MsgRoundTrip(m: LevelMsg, bytes: seq<Byte>)
    requires InRange(m) && EmitMsg(m).Some?
    requires Unpack(bytes) == EmitMsg(m).value + Falses(Padding(|EmitMsg(m).value|))
    ensures DecodeMsg(bytes) == Decoded(m, 0)
  {
    hide EmitAll, ParseAll, AllCanonical, Unpack, Fields, Emit, ParseBytes;
    var bits := Unpack(bytes);
    var header := EmitAll(Fields(), HeaderOf(m), 0).value;
    var raw := Emit(Raw(|m.levelData|), Blob(m.levelData), |header|).value;
    HoldsSplit(bits, 0, header, raw);
    AllRoundTrip(Fields(), HeaderOf(m), bits, 0);
    RawTail(m.levelData, bits, |header|);
    assert bits[|header| + |raw|..] == Falses(Padding(|header| + |raw|));
  }

  lemma RawTail(data: seq<Byte>, bits: seq<bool>, pos: nat)
    requires Emit(Raw(|data|), Blob(data), pos).Some? ==> Holds(bits, pos, Emit(Raw(|data|), Blob(data), pos).value)
    ensures Emit(Raw(|data|), Blob(data), pos).Some?
    ensures ParseBytes(|data|, bits, pos) == Done(Blob(data), pos + |Emit(Raw(|data|), Blob(data), pos).value|)
    ensures data == [] ==> BytesFor(pos) == BytesFor(pos + |Emit(Raw(|data|), Blob(data), pos).value|)
  {
    hide Pack;
    BytesRoundTrip(data, bits, pos);
    AlignmentEndsByte(pos / 8, pos % 8);
  }

  /** The header's layout sums to 21 bytes, a flag and at most seven bits of padding per aligned field. */
  lemma HeaderBits()
    ensures MaxBitsFrom(Fields(), 0) == 239
    ensures forall s :: s in Fields() ==> FixedSize(s)
  {
    var f := Fields();
    assert MaxBitsFrom(f, 9) == 2 * 23;
    assert MaxBitsFrom(f, 7) == 23 + 15 + 46;
    assert MaxBitsFrom(f, 5) == 15 + 39 + 84;
    assert MaxBitsFrom(f, 3) == 1 + 23 + 138;
    assert MaxBitsFrom(f, 1) == 39 + 23 + 162;
  }

  /** No level message exceeds the snapshot limit, so an Elect is never skipped for its size. */
  lemma MsgFitsSnapshot(m: LevelMsg)
    requires EmitMsg(m).Some?
    ensures BytesFor(|EmitMsg(m).value|) <= 31 + |m.levelData| <= SNAPSHOT_MAX_DATA_BYTES
  {
    assert FixedSize(Raw(|m.levelData|));
    hide EmitAll, Emit, Fields, MaxBitsFrom, FixedSize, BytesFor;
    HeaderBits();
    assert Fields()[0..] == Fields();
    EmitAllSize(Fields(), 0, HeaderOf(m), 0);
    var header := EmitAll(Fields(), HeaderOf(m), 0).value;
    EmitSize(Raw(|m.levelData|), Blob(m.levelData), |header|);
    BytesForSum(|header|, |Emit(Raw(|m.levelData|), Blob(m.levelData), |header|).value|, |m.levelData|);
  }

  lemma BytesForSum(header: nat, raw: nat, bytes: nat)
    requires header <= 239 && raw <= 7 + 8 * bytes
    ensures BytesFor(header + raw) <= 31 + bytes
  {}

  /** encodeNetLevelDataMsg: the writer is sized so that it never grows. */
  method EncodeMsg(m: LevelMsg) returns (r: Option<seq<Byte>>)
    ensures r.Some? <==> EmitMsg(m).Some?
    ensures r.Some? ==> Unpack(r.value) == EmitMsg(m).value + Falses(Padding(|EmitMsg(m).value|))
    ensures r.Some? ==> |r.value| <= SNAPSHOT_MAX_DATA_BYTES
  {
    hide EmitAll, Emit, Fields, Unpack, Padding, BytesFor;
    if |m.levelData| > NET_LEVEL_DATA_MAX_BYTES {
      return None;
    }
    var w := new W.BinaryWriter(64 + |m.levelData|);
    var ok := NativeIos.WriteAll(w, Fields(), HeaderOf(m));
    if ok {
      ok := NativeIos.WriteValue(w, Raw(|m.levelData|), Blob(m.levelData));
    }
    if !ok {
      return None;
    }
    MsgFitsSnapshot(m);
    assert w.stream == EmitMsg(m).value;
    var bytes := w.ToBuffer();
    return Some(bytes);
  }

  /** decodeNetLevelDataMsg. */
  method DecodeBuffer(bytes: seq<Byte>) returns (d: Decoded)
    ensures d == DecodeMsg(bytes)
  {
    hide ParseAll, ParseBytes, Fields, Unpack;
    var r := new R.BinaryReader(bytes);
    var header := NativeIos.ReadAll(r, Fields());
    if header == Failed || !(header.value.Tuple? && IsHeader(header.value.vs)) {
      return Malformed;
    }
    var vs := header.value.vs;
    var length := vs[10].n;
    if length > NET_LEVEL_DATA_MAX_BYTES || length < 0 {
      return Malformed;
    }
    var data: seq<Byte> := [];
    if length > 0 {
      var raw := NativeIos.ReadBlob(r, length);
      if raw == Failed || !raw.value.Blob? {
        return Malformed;
      }
      data := raw.value.bytes;
    }
    return Decoded(FromHeader(vs, data), r.Remaining());
  }
}
