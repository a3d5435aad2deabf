/**
 * The frame of a NetLevelDataElect: sendElect and createLevelElectPayload in
 * src/services/GameMessageService.js encode a level message and put it through a fresh writer,
 * for a reader that is just as fresh; the persistent streams are not touched.
 */
module ElectFrames {
  import opened Octets
  import opened Options
  import opened BitStreams
  import opened SnapshotFrames
  import opened SnapshotLimits
  import NetLevelData
  import P = SnapshotProtocol
  import R = SnapshotReaders
  import W = SnapshotWriters

  function Link(): P.Setup {
    P.Setup(W.Config(10, SNAPSHOT_MAX_DATA_BYTES), SNAPSHOT_MAX_DATA_BYTES)
  }

  function ElectFrame(payload: seq<Byte>): Frame {
    W.WriteStep(Link().writer, W.Initial, payload).1
  }

  predicate IsPayload(m: NetLevelData.LevelMsg, payload: seq<Byte>) {
    && NetLevelData.EmitMsg(m).Some?
    && Unpack(payload) == NetLevelData.EmitMsg(m).value + Falses(Padding(|NetLevelData.EmitMsg(m).value|))
  }

  /** A fresh reader accepts the frame and decodes from it the level message itself, whole. */
  lemma ElectArrives(m: NetLevelData.LevelMsg, payload: seq<Byte>)
    requires NetLevelData.InRange(m) && IsPayload(m, payload)
    ensures var res := R.ReadStep(SNAPSHOT_MAX_DATA_BYTES, R.Initial, ElectFrame(payload)).1;
            res.Accepted? && res.data == payload && NetLevelData.DecodeMsg(res.data) == NetLevelData.Decoded(m, 0)
  {
    hide NetLevelData.EmitMsg, NetLevelData.DecodeMsg, Unpack, Padding, W.WriteStep, R.ReadStep, NetLevelData.InRange;
    NetLevelData.MsgRoundTrip(m, payload);
    PayloadSize(m, payload);
    FreshInStep();
    P.WriteInStep(Link(), W.Initial, R.Initial, payload);
  }

  lemma PayloadSize(m: NetLevelData.LevelMsg, payload: seq<Byte>)
    requires IsPayload(m, payload)
    ensures |payload| <= SNAPSHOT_MAX_DATA_BYTES
  {
    hide NetLevelData.EmitMsg;
    NetLevelData.MsgFitsSnapshot(m);
  }

  lemma FreshInStep()
    ensures P.InStep(Link(), W.Initial, R.Initial)
  {}
}
